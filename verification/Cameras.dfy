/**
 Cameras and the viewpoints they are attached to. A viewpoint keeps a list of its cameras and calls each of them on an event;
 what a camera does then may take it off the very list that is being gone through. A player's camera goes by its owner's id.
 */
module Cameras {
  import opened Wrappers

  type Id = nat
  type Grid = nat

  /** An object and its viewpoint. */
  datatype Thing = Thing(
    player: bool,
    viewable: bool,              // a unit or a dynamic object
    flagged: bool,               // active for a reason of its own; players always are
    place: Option<nat>,          // the map it belongs to
    inWorld: bool,
    listed: bool,                // among its map's active objects, players aside
    grid: Option<Grid>,
    cameras: seq<Id>
  ) {
    predicate IsActive()
    {
      flagged || cameras != []
    }
  }

  /** A camera: what it looks from, the grid it receives from, and how often it brought its owner's picture up to date. */
  datatype Camera = Camera(source: Id, grid: Option<Grid>, refreshed: nat)

  datatype World = World(things: map<Id, Thing>, cams: map<Id, Camera>)

  predicate InMap(a: Thing, b: Thing)
  {
    a.inWorld && b.inWorld && a.place == b.place
  }

  // ----- Lists -----

  predicate Once(cs: seq<Id>)
  {
    forall i, j :: 0 <= i < j < |cs| ==> cs[i] != cs[j]
  }

  /** What removing by value leaves. */
  function Without(cs: seq<Id>, c: Id): seq<Id>
  {
    if cs == [] then [] else (if cs[0] == c then [] else [cs[0]]) + Without(cs[1..], c)
  }

  lemma {:induction false} WithoutIs(cs: seq<Id>, c: Id)
    requires Once(cs)
    ensures Once(Without(cs, c)) && forall d :: d in Without(cs, c) <==> d in cs && d != c
  {
    if cs != [] {
      WithoutIs(cs[1..], c);
      assert cs[0] !in cs[1..];
      OnceFront(if cs[0] == c then [] else [cs[0]], Without(cs[1..], c));
    }
  }

  lemma OnceFront(front: seq<Id>, cs: seq<Id>)
    requires |front| <= 1 && Once(cs) && (front != [] ==> front[0] !in cs)
    ensures Once(front + cs)
  {
  }

  lemma OnceGrows(cs: seq<Id>, c: Id)
    requires Once(cs) && c !in cs
    ensures Once(cs + [c])
  {
  }

  lemma {:induction false} WithoutAbsent(cs: seq<Id>, c: Id)
    requires c !in cs
    ensures Without(cs, c) == cs
  {
    if cs != [] {
      WithoutAbsent(cs[1..], c);
    }
  }

  lemma {:induction false} WithoutHere(head: seq<Id>, c: Id, tail: seq<Id>)
    requires Once(head + [c] + tail)
    ensures Without(head + [c] + tail, c) == head + tail
  {
    var cs := head + [c] + tail;
    if head == [] {
      assert cs[1..] == tail;
      assert forall i :: 0 <= i < |tail| ==> tail[i] == cs[i + 1];
      WithoutAbsent(tail, c);
      assert head + tail == tail;
    } else {
      assert cs[1..] == head[1..] + [c] + tail;
      assert cs[0] != cs[|head|];
      WithoutHere(head[1..], c, tail);
      assert head + tail == [head[0]] + (head[1..] + tail);
    }
  }

  /** An iterator: an element, or the end. Moving on from an element takes that it is still in the list. */
  function Begin(cs: seq<Id>): Option<Id>
  {
    if cs == [] then None else Some(cs[0])
  }

  function Step(cs: seq<Id>, c: Id): Option<Id>
    requires c in cs
  {
    if cs[0] == c then Begin(cs[1..]) else Step(cs[1..], c)
  }

  lemma {:induction false} StepFrom(head: seq<Id>, c: Id, tail: seq<Id>)
    requires Once(head + [c] + tail)
    ensures c in head + [c] + tail && Step(head + [c] + tail, c) == Begin(tail)
  {
    var cs := head + [c] + tail;
    assert cs[|head|] == c;
    if head == [] {
      assert cs[1..] == tail;
    } else {
      assert cs[0] != cs[|head|];
      assert cs[1..] == head[1..] + [c] + tail;
      StepFrom(head[1..], c, tail);
    }
  }

  /** With a camera twice on a list the iterator moved on from it would be gone once the camera is taken off. */
  lemma TwiceWouldNotDo(c: Id)
    ensures Step([c, c], c) == Some(c) && c !in Without([c, c], c)
  {
    assert [c, c][1..] == [c] && [c][1..] == [];
    assert Without([c], c) == [];
  }

  // ----- Views -----

  predicate Wf(w: World)
  {
    forall c :: c in w.cams ==> c in w.things && w.cams[c].source in w.things
  }

  /** Nothing about the object changed but its list and whether it is active. */
  predicate Same(t: Thing, r: Thing)
  {
    r == t.(cameras := r.cameras, listed := r.listed)
  }

  /** An object in the world is among the active ones exactly while there is a reason; a player is never put there. */
  predicate Listed(t: Thing)
  {
    if t.player then t.flagged && !t.listed
    else if t.inWorld then t.listed <==> t.IsActive()
    else t.listed <==> !t.flagged && t.cameras != []
  }

  /** With a camera less; an object with no more reason to be active is none. */
  function Left(t: Thing, c: Id): (r: Thing)
    ensures Same(t, r) && r.cameras == Without(t.cameras, c) && (Listed(t) ==> Listed(r)) && (r.listed ==> t.listed)
  {
    var s := t.(cameras := Without(t.cameras, c));
    if s.IsActive() then s else s.(listed := false)
  }

  /** With a camera more. */
  function Joined(t: Thing, c: Id): (r: Thing)
    ensures Same(t, r) && r.cameras == t.cameras + [c] && (Listed(t) ==> Listed(r))
  {
    var s := if t.IsActive() then t else t.(listed := true);
    s.(cameras := s.cameras + [c])
  }

  function Looking(k: Camera, obj: Id, t: Thing): (r: Camera)
    ensures r.source == obj && r.grid == t.grid
    ensures r.refreshed == k.refreshed + if t.place.Some? then 1 else 0
  {
    Camera(obj, t.grid, k.refreshed + if t.place.Some? then 1 else 0)
  }

  function Move(w: World, c: Id, obj: Id): (r: World)
    requires Wf(w) && c in w.cams && obj in w.things && w.cams[c].source != obj
    ensures Wf(r) && r.things.Keys == w.things.Keys && r.cams.Keys == w.cams.Keys
  {
    var from := w.cams[c].source;
    World(w.things[from := Left(w.things[from], c)][obj := Joined(w.things[obj], c)],
          w.cams[c := Looking(w.cams[c], obj, w.things[obj])])
  }

  /** The view goes to the object unless it is there, is on another map or is nothing a client can look from. */
  function SetView(w: World, c: Id, obj: Id): (r: World)
    requires Wf(w) && c in w.cams && obj in w.things
    ensures Wf(r)
  {
    if w.cams[c].source == obj || !InMap(w.things[c], w.things[obj]) || !w.things[obj].viewable then w
    else Move(w, c, obj)
  }

  function ResetView(w: World, c: Id): (r: World)
    requires Wf(w) && c in w.cams
    ensures Wf(r)
  {
    SetView(w, c, c)
  }

  // ----- Handlers -----

  datatype Handler = Added | Removed | Moved | VisibilityChanged(blind: set<Id>) | Refresh

  function Refreshed(w: World, c: Id): (r: World)
    requires Wf(w) && c in w.cams
    ensures Wf(r)
  {
    if w.things[w.cams[c].source].place.None? then w
    else w.(cams := w.cams[c := w.cams[c].(refreshed := w.cams[c].refreshed + 1)])
  }

  function Regridded(w: World, c: Id): (r: World)
    requires Wf(w) && c in w.cams
    ensures Wf(r)
  {
    w.(cams := w.cams[c := w.cams[c].(grid := w.things[w.cams[c].source].grid)])
  }

  function Handle(w: World, c: Id, h: Handler): (r: World)
    requires Wf(w) && c in w.cams
    ensures Wf(r)
  {
    match h
    case Added => Refreshed(Regridded(w, c), c)
    case Removed =>
      if w.cams[c].source == c then w.(cams := w.cams[c := w.cams[c].(grid := None)]) else ResetView(w, c)
    case Moved => Regridded(w, c)
    case VisibilityChanged(blind) => if c in blind then ResetView(w, c) else w
    case Refresh => Refreshed(w, c)
  }

  /** Every camera of a list in order, whatever becomes of the list. */
  function HandleAll(w: World, cs: seq<Id>, h: Handler): (r: World)
    requires Wf(w) && forall c :: c in cs ==> c in w.cams
    ensures Wf(r) && r.cams.Keys == w.cams.Keys && r.things.Keys == w.things.Keys
  {
    if cs == [] then w else Handle(HandleAll(w, cs[..|cs| - 1], h), cs[|cs| - 1], h)
  }

  function At(w: World, o: Id, h: Handler): World
    requires Linked(w) && o in w.things
  {
    HandleAll(w, w.things[o].cameras, h)
  }

  // ----- Coherence -----

  /** A camera is on its source's list. */
  predicate OnTheirLists(w: World)
  {
    Wf(w) && forall c :: c in w.cams ==> IsListed(w, c)
  }

  /** A list has no camera twice, and none that looks from elsewhere. */
  predicate ListIsTrue(cs: seq<Id>, o: Id, cams: map<Id, Camera>)
  {
    Once(cs) && forall c :: c in cs ==> c in cams && cams[c].source == o
  }

  predicate ListsAreTrue(w: World)
  {
    forall o :: o in w.things ==> ListIsTrue(w.things[o].cameras, o, w.cams)
  }

  /** Owners are players, and who looks from elsewhere is in the same map. */
  predicate Near(w: World)
  {
    Wf(w) && forall c :: c in w.cams ==>
      && w.things[c].player && w.things[c].viewable
      && (w.cams[c].source != c ==> InMap(w.things[c], w.things[w.cams[c].source]))
  }

  /** Each camera is on one list, once: that of its source. */
  predicate Linked(w: World)
  {
    Wf(w) && OnTheirLists(w) && ListsAreTrue(w) && Near(w)
  }

  /** A camera receives what happens in its source's grid. */
  predicate Follows(w: World, c: Id)
    requires Wf(w) && c in w.cams
  {
    w.cams[c].grid == w.things[w.cams[c].source].grid
  }

  predicate Placed(t: Thing)
  {
    && Listed(t)
    && (t.player ==> t.viewable)
    && (if t.inWorld then t.place.Some? && t.grid.Some? else t.viewable ==> t.grid.None?)
  }

  predicate Valid(w: World)
  {
    Linked(w) && AllFollow(w) && AllPlaced(w)
  }

  predicate AllFollow(w: World)
  {
    Wf(w) && forall c :: c in w.cams ==> Follows(w, c)
  }

  predicate AllPlaced(w: World)
  {
    forall o :: o in w.things ==> Placed(w.things[o])
  }

  predicate SamePlaces(w: World, r: World)
  {
    w.things.Keys == r.things.Keys && forall o :: o in w.things ==> Same(w.things[o], r.things[o])
  }

  predicate KeepsListed(w: World, r: World)
    requires w.things.Keys == r.things.Keys
  {
    forall o :: o in w.things && Listed(w.things[o]) ==> Listed(r.things[o])
  }

  // ----- One move -----

  lemma MovedThing(w: World, c: Id, obj: Id, o: Id)
    requires Wf(w) && c in w.cams && obj in w.things && w.cams[c].source != obj && o in w.things
    ensures var t, u := w.things[o], Move(w, c, obj).things[o];
            && Same(t, u) && (Listed(t) ==> Listed(u)) && (o == w.cams[c].source && u.listed ==> t.listed)
            && u.cameras == if o == w.cams[c].source then Without(t.cameras, c)
                            else if o == obj then t.cameras + [c] else t.cameras
  {
    hide Without, Left, Joined, Looking, Listed, Wf;
  }

  lemma MovedCamera(w: World, c: Id, obj: Id, d: Id)
    requires Wf(w) && c in w.cams && obj in w.things && w.cams[c].source != obj && d in w.cams
    ensures var r := Move(w, c, obj);
            if d == c then r.cams[c].source == obj && r.cams[c].grid == r.things[obj].grid else r.cams[d] == w.cams[d]
  {
    hide Without, Left, Looking, Listed;
  }

  lemma MoveIs(w: World, c: Id, obj: Id)
    requires Wf(w) && c in w.cams && obj in w.things && w.cams[c].source != obj
    ensures var r := Move(w, c, obj);
            && SamePlaces(w, r) && KeepsListed(w, r)
            && (forall d :: d in w.cams && d != c ==> r.cams[d] == w.cams[d])
            && r.cams[c].source == obj && r.cams[c].grid == r.things[obj].grid
            && (r.things[w.cams[c].source].listed ==> w.things[w.cams[c].source].listed)
            && (forall o :: o in w.things ==>
                  r.things[o].cameras == if o == w.cams[c].source then Without(w.things[o].cameras, c)
                                         else if o == obj then w.things[o].cameras + [c] else w.things[o].cameras)
  {
    hide Move, Without, Listed, Same;
    var r := Move(w, c, obj);
    MovedCamera(w, c, obj, c);
    MovedThing(w, c, obj, w.cams[c].source);
    forall d | d in w.cams && d != c
      ensures r.cams[d] == w.cams[d]
    {
      MovedCamera(w, c, obj, d);
    }
    forall o | o in w.things
      ensures Same(w.things[o], r.things[o]) && (Listed(w.things[o]) ==> Listed(r.things[o]))
      ensures r.things[o].cameras == if o == w.cams[c].source then Without(w.things[o].cameras, c)
                                     else if o == obj then w.things[o].cameras + [c] else w.things[o].cameras
    {
      MovedThing(w, c, obj, o);
    }
  }

  predicate IsListed(w: World, c: Id)
    requires Wf(w) && c in w.cams
  {
    c in w.things[w.cams[c].source].cameras
  }

  lemma MovedIsListed(w: World, c: Id, obj: Id, d: Id)
    requires Wf(w) && c in w.cams && obj in w.things && w.cams[c].source != obj
    requires Once(w.things[w.cams[c].source].cameras) && d in w.cams && IsListed(w, d)
    ensures IsListed(Move(w, c, obj), d)
  {
    hide Once, Without, Left, Joined, Looking, Same, Listed;
    var from := w.cams[c].source;
    WithoutIs(w.things[from].cameras, c);
    var left, joined := Left(w.things[from], c), Joined(w.things[obj], c);
    if d == c {
      assert c in joined.cameras;
    } else if w.cams[d].source == from {
      assert d in left.cameras;
    } else if w.cams[d].source == obj {
      assert d in joined.cameras;
    }
  }

  lemma MoveKeepsOnTheirLists(w: World, c: Id, obj: Id)
    requires OnTheirLists(w) && c in w.cams && obj in w.things && w.cams[c].source != obj
    requires Once(w.things[w.cams[c].source].cameras)
    ensures OnTheirLists(Move(w, c, obj))
  {
    hide Once, Move, IsListed;
    var r := Move(w, c, obj);
    forall d | d in r.cams
      ensures IsListed(r, d)
    {
      MovedIsListed(w, c, obj, d);
    }
  }

  lemma LeftIsTrue(cs: seq<Id>, o: Id, cams: map<Id, Camera>, c: Id, k: Camera)
    requires ListIsTrue(cs, o, cams)
    ensures ListIsTrue(Without(cs, c), o, cams[c := k])
  {
    hide Without;
    WithoutIs(cs, c);
  }

  lemma JoinedIsTrue(cs: seq<Id>, o: Id, cams: map<Id, Camera>, c: Id, k: Camera)
    requires ListIsTrue(cs, o, cams) && c in cams && cams[c].source != o && k.source == o
    ensures ListIsTrue(cs + [c], o, cams[c := k])
  {
    OnceGrows(cs, c);
  }

  lemma OthersAreTrue(cs: seq<Id>, o: Id, cams: map<Id, Camera>, c: Id, k: Camera)
    requires ListIsTrue(cs, o, cams) && c in cams && cams[c].source != o
    ensures ListIsTrue(cs, o, cams[c := k])
  {
  }

  lemma MoveKeepsLists(w: World, c: Id, obj: Id)
    requires Wf(w) && ListsAreTrue(w) && c in w.cams && obj in w.things && w.cams[c].source != obj
    ensures ListsAreTrue(Move(w, c, obj))
  {
    var from, r := w.cams[c].source, Move(w, c, obj);
    MoveIs(w, c, obj);
    var k := r.cams[c];
    assert r.cams == w.cams[c := k];
    hide ListIsTrue, Without, Listed, Move, Same;
    forall o | o in r.things
      ensures ListIsTrue(r.things[o].cameras, o, r.cams)
    {
      var cs := w.things[o].cameras;
      assert ListIsTrue(cs, o, w.cams);
      if o == from {
        LeftIsTrue(cs, o, w.cams, c, k);
      } else if o == obj {
        JoinedIsTrue(cs, o, w.cams, c, k);
      } else {
        OthersAreTrue(cs, o, w.cams, c, k);
      }
    }
  }

  lemma SameInMap(a: Thing, b: Thing, c: Thing, d: Thing)
    requires Same(a, c) && Same(b, d)
    ensures InMap(a, b) == InMap(c, d) && a.player == c.player && a.viewable == c.viewable
  {
  }

  lemma MoveKeepsNear(w: World, c: Id, obj: Id)
    requires Near(w) && c in w.cams && obj in w.things && w.cams[c].source != obj
    requires obj != c ==> InMap(w.things[c], w.things[obj])
    ensures Near(Move(w, c, obj))
  {
    var r := Move(w, c, obj);
    MoveIs(w, c, obj);
    hide Without, Listed, Move, Same, InMap;
    forall d | d in r.cams
      ensures r.things[d].player && r.things[d].viewable
      ensures r.cams[d].source != d ==> InMap(r.things[d], r.things[r.cams[d].source])
    {
      var s := r.cams[d].source;
      SameInMap(w.things[d], w.things[s], r.things[d], r.things[s]);
    }
  }

  lemma FromIsOnce(w: World, o: Id)
    requires ListsAreTrue(w) && o in w.things
    ensures Once(w.things[o].cameras)
  {
  }

  lemma SetViewKeeps(w: World, c: Id, obj: Id)
    requires Linked(w) && c in w.cams && obj in w.things
    ensures Linked(SetView(w, c, obj))
  {
    hide OnTheirLists, ListsAreTrue, Near, Move;
    if SetView(w, c, obj) != w {
      FromIsOnce(w, w.cams[c].source);
      MoveKeepsOnTheirLists(w, c, obj);
      MoveKeepsLists(w, c, obj);
      MoveKeepsNear(w, c, obj);
    }
  }

  // ----- An event at a viewpoint -----

  /** Whether the handler takes the camera back to its owner. */
  predicate GoesHome(h: Handler, c: Id, from: Id)
  {
    c != from && (h.Removed? || (h.VisibilityChanged? && c in h.blind))
  }

  /** Those of a viewpoint's cameras that stay with it. */
  function Staying(cs: seq<Id>, h: Handler, from: Id): seq<Id>
  {
    if cs == [] then []
    else
      var last := cs[|cs| - 1];
      Staying(cs[..|cs| - 1], h, from) + if GoesHome(h, last, from) then [] else [last]
  }

  /** The camera that comes back to this owner, if it was there and goes home. */
  function Coming(cs: seq<Id>, h: Handler, from: Id, to: Id): seq<Id>
  {
    if to in cs && GoesHome(h, to, from) then [to] else []
  }

  lemma StayingOn(cs: seq<Id>, c: Id, h: Handler, from: Id)
    ensures Staying(cs + [c], h, from) == Staying(cs, h, from) + if GoesHome(h, c, from) then [] else [c]
  {
    assert (cs + [c])[..|cs|] == cs;
  }

  lemma {:induction false} StayingIs(cs: seq<Id>, h: Handler, from: Id)
    ensures forall c :: c in Staying(cs, h, from) <==> c in cs && !GoesHome(h, c, from)
  {
    if cs != [] {
      StayingIs(cs[..|cs| - 1], h, from);
      assert cs == cs[..|cs| - 1] + [cs[|cs| - 1]];
    }
  }

  /** What an event comes to for one of the cameras: where it looks from, its grid, its owner's picture. */
  predicate Treated(was: Camera, c: Id, h: Handler, from: Id, r: World)
    requires c in r.cams && r.cams[c].source in r.things
  {
    var k, s := r.cams[c], r.things[r.cams[c].source];
    && k.source == (if GoesHome(h, c, from) then c else from)
    && k.grid == (if GoesHome(h, c, from) || h.Added? || h.Moved? || h.Removed? then s.grid else was.grid)
    && k.refreshed == was.refreshed
       + if (GoesHome(h, c, from) || h.Added? || h.Refresh?) && s.place.Some? then 1 else 0
  }

  /** The viewpoint's grid as the event finds it. */
  predicate Fits(h: Handler, o: Thing)
  {
    (h.Added? || h.Moved? ==> o.grid.Some?) && (h.Removed? ==> o.grid.None?)
  }

  predicate OthersSame(w: World, r: World, c: Id)
  {
    w.cams.Keys == r.cams.Keys && forall d :: d in w.cams && d != c ==> r.cams[d] == w.cams[d]
  }

  /** A camera after a handler that leaves it where it is. */
  function Kept(k: Camera, h: Handler, s: Thing): (r: Camera)
    ensures r.source == k.source
    ensures r.grid == if h.Added? || h.Moved? || h.Removed? then s.grid else k.grid
    ensures r.refreshed == k.refreshed + if (h.Added? || h.Refresh?) && s.place.Some? then 1 else 0
  {
    Camera(k.source, if h.Added? || h.Moved? || h.Removed? then s.grid else k.grid,
           k.refreshed + if (h.Added? || h.Refresh?) && s.place.Some? then 1 else 0)
  }

  /** In a linked world a handler either takes the camera home or changes nothing but the camera. */
  lemma HandleForm(w: World, c: Id, h: Handler, o: Id)
    requires Linked(w) && c in w.cams && w.cams[c].source == o && Fits(h, w.things[o])
    ensures Handle(w, c, h) == if GoesHome(h, c, o) then Move(w, c, c)
                               else w.(cams := w.cams[c := Kept(w.cams[c], h, w.things[o])])
  {
    hide Move, OnTheirLists, ListsAreTrue;
    var k := w.cams[c];
    assert w.cams[c := k] == w.cams;
    var g := k.(grid := w.things[o].grid);
    assert w.cams[c := g][c := g.(refreshed := g.refreshed + 1)] == w.cams[c := g.(refreshed := g.refreshed + 1)];
  }

  lemma CameraOnly(w: World, c: Id, k: Camera)
    requires Linked(w) && c in w.cams && k.source == w.cams[c].source
    ensures Linked(w.(cams := w.cams[c := k]))
  {
    var r := w.(cams := w.cams[c := k]);
    CameraNear(w, c, k);
    hide OnTheirLists, ListsAreTrue, Near;
    SameLists(w, r);
  }

  lemma CameraNear(w: World, c: Id, k: Camera)
    requires Near(w) && c in w.cams && k.source == w.cams[c].source
    ensures Near(w.(cams := w.cams[c := k]))
  {
    hide InMap;
  }

  lemma NearIsWf(w: World)
    requires Near(w)
    ensures Wf(w)
  {
  }

  /** The lists and what the cameras look from being the same, it is enough that those are near. */
  lemma SameLists(w: World, r: World)
    requires Linked(w) && Near(r) && r.cams.Keys == w.cams.Keys && r.things.Keys == w.things.Keys
    requires forall c :: c in w.cams ==> r.cams[c].source == w.cams[c].source
    requires forall o :: o in w.things ==> r.things[o].cameras == w.things[o].cameras
    ensures Linked(r)
  {
    NearIsWf(r);
    hide Near, Once;
    forall c | c in r.cams
      ensures IsListed(r, c)
    {
      assert IsListed(w, c);
    }
    forall o | o in r.things
      ensures ListIsTrue(r.things[o].cameras, o, r.cams)
    {
      assert ListIsTrue(w.things[o].cameras, o, w.cams);
    }
  }

  lemma HandleKeeps(w: World, c: Id, h: Handler, o: Id)
    requires Linked(w) && c in w.cams && w.cams[c].source == o && Fits(h, w.things[o])
    ensures Linked(Handle(w, c, h))
  {
    HandleForm(w, c, h, o);
    if GoesHome(h, c, o) {
      IsHome(w, c);
      SetViewKeeps(w, c, c);
    } else {
      CameraOnly(w, c, Kept(w.cams[c], h, w.things[o]));
    }
  }

  lemma IsHome(w: World, c: Id)
    requires Linked(w) && c in w.cams && w.cams[c].source != c
    ensures SetView(w, c, c) == Move(w, c, c)
  {
    hide Move, OnTheirLists, ListsAreTrue;
  }

  predicate ListsAfter(w: World, r: World, c: Id, home: bool, o: Id)
    requires w.things.Keys == r.things.Keys && o in w.things
  {
    && r.things[o].cameras == (if home then Without(w.things[o].cameras, c) else w.things[o].cameras)
    && (r.things[o].listed ==> w.things[o].listed)
    && forall p :: p in w.things && p != o ==>
         r.things[p].cameras == w.things[p].cameras + if home && p == c then [c] else []
  }

  predicate Outcome(w: World, r: World, c: Id, h: Handler, o: Id)
  {
    && o in w.things && c in w.cams && Wf(r)
    && SamePlaces(w, r) && KeepsListed(w, r) && OthersSame(w, r, c)
    && Treated(w.cams[c], c, h, o, r) && ListsAfter(w, r, c, GoesHome(h, c, o), o)
  }

  lemma HomeIs(w: World, c: Id, h: Handler, o: Id)
    requires Wf(w) && c in w.cams && w.cams[c].source == o && GoesHome(h, c, o)
    ensures Outcome(w, Move(w, c, c), c, h, o)
  {
    MoveIs(w, c, c);
    var r := Move(w, c, c);
    hide Listed, Move, Without, Wf;
    assert Same(w.things[c], r.things[c]);
    HomeLists(w, r, c, o);
    hide SamePlaces, KeepsListed, ListsAfter;
  }

  lemma HomeLists(w: World, r: World, c: Id, o: Id)
    requires w.things.Keys == r.things.Keys && o in w.things && o != c && (r.things[o].listed ==> w.things[o].listed)
    requires forall p :: p in w.things ==>
               r.things[p].cameras == if p == o then Without(w.things[p].cameras, c)
                                      else if p == c then w.things[p].cameras + [c] else w.things[p].cameras
    ensures ListsAfter(w, r, c, true, o)
  {
    hide Without;
    assert forall s: seq<Id> :: s + [] == s;
  }

  lemma KeptIs(w: World, c: Id, h: Handler, o: Id)
    requires Wf(w) && c in w.cams && w.cams[c].source == o && !GoesHome(h, c, o)
    ensures Outcome(w, w.(cams := w.cams[c := Kept(w.cams[c], h, w.things[o])]), c, h, o)
  {
    hide Listed, Without, Kept;
  }

  lemma HandleIs(w: World, c: Id, h: Handler, o: Id)
    requires Linked(w) && c in w.cams && w.cams[c].source == o && Fits(h, w.things[o])
    ensures Outcome(w, Handle(w, c, h), c, h, o)
  {
    HandleForm(w, c, h, o);
    hide Outcome, Handle, OnTheirLists, ListsAreTrue, Near, Kept, Move;
    if GoesHome(h, c, o) {
      HomeIs(w, c, h, o);
    } else {
      KeptIs(w, c, h, o);
    }
  }
}
