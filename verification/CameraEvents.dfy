/** What an event does to all cameras of a viewpoint, and what every event of the world keeps. */
module CameraEvents {
  import opened Wrappers
  import opened Cameras

  // ----- All of them -----

  predicate ListsBy(w: World, r: World, cs: seq<Id>, left: seq<Id>, h: Handler, o: Id)
    requires w.things.Keys == r.things.Keys && o in w.things
  {
    && r.things[o].cameras == Staying(cs, h, o) + left
    && (r.things[o].listed ==> w.things[o].listed)
    && forall p :: p in w.things && p != o ==> r.things[p].cameras == w.things[p].cameras + Coming(cs, h, o, p)
  }

  predicate Reached(w: World, r: World, cs: seq<Id>, h: Handler, o: Id)
    requires Wf(r) && w.cams.Keys == r.cams.Keys
  {
    forall c :: c in w.cams ==> if c in cs then Treated(w.cams[c], c, h, o, r) else r.cams[c] == w.cams[c]
  }

  /** The world after the event has been to the first of the viewpoint's cameras. */
  predicate PartWay(w: World, r: World, cs: seq<Id>, left: seq<Id>, h: Handler, o: Id)
  {
    && o in w.things && Linked(r) && w.cams.Keys == r.cams.Keys
    && SamePlaces(w, r) && KeepsListed(w, r)
    && ListsBy(w, r, cs, left, h, o) && Reached(w, r, cs, h, o)
  }

  lemma FirstIsNew(cs: seq<Id>, left: seq<Id>)
    requires Once(cs + left) && left != []
    ensures left[0] !in cs && left == [left[0]] + left[1..]
  {
    assert (cs + left)[|cs|] == left[0];
    assert forall i :: 0 <= i < |cs| ==> (cs + left)[i] == cs[i];
  }

  lemma ListOn(list: seq<Id>, next: seq<Id>, cs: seq<Id>, left: seq<Id>, h: Handler, o: Id)
    requires left != [] && Once(list) && list == Staying(cs, h, o) + left
    requires next == if GoesHome(h, left[0], o) then Without(list, left[0]) else list
    ensures next == Staying(cs + [left[0]], h, o) + left[1..]
  {
    hide Once, Without, Staying, GoesHome;
    var c, head := left[0], Staying(cs, h, o);
    StayingOn(cs, c, h, o);
    assert list == head + [c] + left[1..];
    WithoutHere(head, c, left[1..]);
  }

  lemma ListsOn(w: World, r: World, s: World, cs: seq<Id>, left: seq<Id>, h: Handler, o: Id)
    requires w.things.Keys == r.things.Keys == s.things.Keys && o in w.things
    requires Once(r.things[o].cameras) && Once(cs + left) && left != []
    requires ListsBy(w, r, cs, left, h, o) && ListsAfter(r, s, left[0], GoesHome(h, left[0], o), o)
    ensures ListsBy(w, s, cs + [left[0]], left[1..], h, o)
  {
    var c := left[0];
    FirstIsNew(cs, left);
    ListOn(r.things[o].cameras, s.things[o].cameras, cs, left, h, o);
    hide Once, Without, Staying, GoesHome;
    forall p | p in w.things && p != o
      ensures s.things[p].cameras == w.things[p].cameras + Coming(cs + [c], h, o, p)
    {
      ComingOn(w.things[p].cameras, r.things[p].cameras, s.things[p].cameras, cs, c, h, o, p);
    }
  }

  lemma ComingOn(was: seq<Id>, list: seq<Id>, next: seq<Id>, cs: seq<Id>, c: Id, h: Handler, o: Id, p: Id)
    requires list == was + Coming(cs, h, o, p) && c !in cs
    requires next == list + if GoesHome(h, c, o) && p == c then [c] else []
    ensures next == was + Coming(cs + [c], h, o, p)
  {
  }

  lemma TreatedStill(was: Camera, d: Id, h: Handler, o: Id, r: World, s: World)
    requires Wf(r) && Wf(s) && d in r.cams && d in s.cams && s.cams[d] == r.cams[d] && SamePlaces(r, s)
    ensures Treated(was, d, h, o, r) == Treated(was, d, h, o, s)
  {
    assert Same(r.things[r.cams[d].source], s.things[r.cams[d].source]);
  }

  lemma ReachedOn(w: World, r: World, s: World, cs: seq<Id>, c: Id, h: Handler, o: Id)
    requires Wf(w) && Wf(r) && Wf(s) && w.cams.Keys == r.cams.Keys && c !in cs && c in w.cams
    requires Reached(w, r, cs, h, o) && OthersSame(r, s, c) && SamePlaces(r, s) && Treated(r.cams[c], c, h, o, s)
    ensures Reached(w, s, cs + [c], h, o)
  {
    hide Treated, SamePlaces;
    forall d | d in w.cams
      ensures if d in cs + [c] then Treated(w.cams[d], d, h, o, s) else s.cams[d] == w.cams[d]
    {
      if d != c {
        assert s.cams[d] == r.cams[d];
        TreatedStill(w.cams[d], d, h, o, r, s);
      }
    }
  }

  lemma SameOn(w: World, r: World, s: World)
    requires SamePlaces(w, r) && KeepsListed(w, r) && SamePlaces(r, s) && KeepsListed(r, s)
    ensures SamePlaces(w, s) && KeepsListed(w, s)
  {
    hide Listed;
    forall o | o in w.things
      ensures Same(w.things[o], s.things[o])
    {
      assert Same(w.things[o], r.things[o]) && Same(r.things[o], s.things[o]);
    }
  }

  lemma OneMore(w: World, r: World, cs: seq<Id>, left: seq<Id>, h: Handler, o: Id)
    requires Linked(w) && PartWay(w, r, cs, left, h, o) && Once(cs + left) && left != []
    requires left[0] in w.cams && w.cams[left[0]].source == o && Fits(h, w.things[o])
    ensures PartWay(w, Handle(r, left[0], h), cs + [left[0]], left[1..], h, o)
  {
    var c := left[0];
    var s := Handle(r, c, h);
    FirstIsNew(cs, left);
    assert r.cams[c] == w.cams[c] && Fits(h, r.things[o]) by {
      hide Linked, ListsBy, KeepsListed;
      assert Same(w.things[o], r.things[o]);
    }
    hide Fits;
    assert Wf(w) && Wf(r);
    FromIsOnce(r, o);
    HandleIs(r, c, h, o);
    HandleKeeps(r, c, h, o);
    hide Linked, Wf, Handle, KeepsListed, SamePlaces, Treated, ListsBy, ListsAfter, Reached, Once;
    SameOn(w, r, s);
    ListsOn(w, r, s, cs, left, h, o);
    ReachedOn(w, r, s, cs, c, h, o);
  }

  lemma NoneYet(w: World, h: Handler, o: Id)
    requires Linked(w) && o in w.things
    ensures PartWay(w, w, [], w.things[o].cameras, h, o)
  {
    hide Linked;
  }

  lemma OnList(w: World, o: Id)
    requires Linked(w) && o in w.things
    ensures Once(w.things[o].cameras)
    ensures forall c :: c in w.things[o].cameras ==> c in w.cams && w.cams[c].source == o
  {
    assert ListIsTrue(w.things[o].cameras, o, w.cams);
  }

  lemma LastOf(cs: seq<Id>, left: seq<Id>)
    requires cs != []
    ensures var init, c := cs[..|cs| - 1], cs[|cs| - 1];
            init + ([c] + left) == cs + left && ([c] + left)[1..] == left && init + [c] == cs && c in cs + left
  {
    assert (cs + left)[|cs| - 1] == cs[|cs| - 1];
  }

  /** Going through the whole list, and through the first part of it. */
  lemma {:induction false} AllIs(w: World, cs: seq<Id>, left: seq<Id>, h: Handler, o: Id)
    requires Linked(w) && o in w.things && Fits(h, w.things[o]) && cs + left == w.things[o].cameras
    requires forall c :: c in cs ==> c in w.cams
    ensures PartWay(w, HandleAll(w, cs, h), cs, left, h, o)
    decreases |cs|
  {
    OnList(w, o);
    if cs == [] {
      NoneYet(w, h, o);
      assert left == w.things[o].cameras;
    } else {
      var init, c := cs[..|cs| - 1], cs[|cs| - 1];
      LastOf(cs, left);
      hide Linked, PartWay, Handle, Once, Fits;
      AllIs(w, init, [c] + left, h, o);
      OneMore(w, HandleAll(w, init, h), init, [c] + left, h, o);
    }
  }

  /** Every camera on the list when the event comes is called exactly once; those that stay are still listed, in order. */
  lemma EveryCameraIsCalled(w: World, h: Handler, o: Id)
    requires Linked(w) && o in w.things && Fits(h, w.things[o])
    ensures var cs := w.things[o].cameras;
            (forall c :: c in cs ==> c in w.cams) && PartWay(w, HandleAll(w, cs, h), cs, [], h, o)
  {
    OnList(w, o);
    assert w.things[o].cameras + [] == w.things[o].cameras;
    AllIs(w, w.things[o].cameras, [], h, o);
  }

  /** When an object leaves the world only its own camera can be left with it. */
  lemma OnlyItsOwnIsLeft(w: World, o: Id)
    requires Linked(w) && o in w.things && w.things[o].grid.None?
    ensures var cs := w.things[o].cameras;
            && (forall c :: c in cs ==> c in w.cams)
            && var r := HandleAll(w, cs, Removed);
            && o in r.things && r.things[o].cameras == (if o in cs then [o] else [])
            && forall c :: c in cs ==> r.cams[c].source == c && (c != o ==> c in r.things && c in r.things[c].cameras)
  {
    EveryCameraIsCalled(w, Removed, o);
    OnList(w, o);
    var cs := w.things[o].cameras;
    JustOwn(cs, o);
    var r := HandleAll(w, cs, Removed);
    hide HandleAll, Staying, KeepsListed, SamePlaces;
    forall c | c in cs
      ensures r.cams[c].source == c && (c != o ==> c in r.things && c in r.things[c].cameras)
    {
      assert Treated(w.cams[c], c, Removed, o, r);
      assert IsListed(r, c);
    }
  }

  lemma {:induction false} JustOwn(cs: seq<Id>, o: Id)
    requires Once(cs)
    ensures Staying(cs, Removed, o) == if o in cs then [o] else []
  {
    if cs != [] {
      var init := cs[..|cs| - 1];
      assert cs == init + [cs[|cs| - 1]];
      JustOwn(init, o);
    }
  }

  // ----- What happens in the world -----

  datatype Event =
    | Appear(id: Id, player: bool, viewable: bool, flagged: bool)
    | Arrive(id: Id, place: nat, grid: Grid)
    | Depart(id: Id)
    | Vanish(id: Id)
    | Look(camera: Id, at: Id)
    | LookHome(camera: Id)
    | Cross(id: Id, grid: Grid)
    | Blink(id: Id, blind: set<Id>)
    | Stir(id: Id)

  /** A player comes with a camera, which looks from the player. */
  function Appeared(w: World, id: Id, player: bool, viewable: bool, flagged: bool): World
  {
    if id in w.things then w
    else
      var cameras := if player then [id] else [];
      World(w.things[id := Thing(player, player || viewable, player || flagged, None, false, false, None, cameras)],
            if player then w.cams[id := Camera(id, None, 0)] else w.cams)
  }

  function Put(t: Thing, place: nat, grid: Grid): Thing
  {
    t.(place := Some(place), inWorld := true, listed := if t.player then t.listed else t.IsActive(), grid := Some(grid))
  }

  function Arrived(w: World, o: Id, place: nat, grid: Grid): World
    requires Linked(w) && o in w.things
  {
    if w.things[o].inWorld then w
    else
      PutKeeps(w, o, Put(w.things[o], place, grid));
      At(w.(things := w.things[o := Put(w.things[o], place, grid)]), o, Added)
  }

  /** On the way out: no longer active, no grid. */
  function Leaving(t: Thing): Thing
  {
    t.(listed := false, grid := None)
  }

  function Out(t: Thing): Thing
  {
    t.(place := None, inWorld := false)
  }

  /** A player's view comes back first; then the cameras of everyone who looks from here are sent home. */
  function Departed(w: World, o: Id): World
    requires Linked(w) && o in w.things
  {
    if !w.things[o].inWorld then w
    else
      var v := if o in w.cams then ResetView(w, o) else w;
      SetViewKeepsIf(w, o, o);
      PutKeeps(v, o, Leaving(v.things[o]));
      var r := At(v.(things := v.things[o := Leaving(v.things[o])]), o, Removed);
      r.(things := r.things[o := Out(r.things[o])])
  }

  lemma LinkedWf(w: World)
    requires Linked(w)
    ensures Wf(w)
  {
  }

  lemma SetViewKeepsIf(w: World, c: Id, obj: Id)
    requires Linked(w) && obj in w.things
    ensures c in w.cams ==> Linked(SetView(w, c, obj))
  {
    hide Linked;
    if c in w.cams {
      LinkedWf(w);
      SetViewKeeps(w, c, obj);
    }
  }

  /** Changing an object without moving it or its cameras keeps the lists. */
  lemma PutKeeps(w: World, o: Id, t: Thing)
    requires Linked(w) && o in w.things && t.cameras == w.things[o].cameras
    requires t.player == w.things[o].player && t.viewable == w.things[o].viewable
    requires w.things[o].inWorld ==> t.inWorld && t.place == w.things[o].place
    ensures Linked(w.(things := w.things[o := t]))
  {
    var r := w.(things := w.things[o := t]);
    hide Once, ListIsTrue;
    forall c | c in w.cams
      ensures IsListed(r, c)
    {
      assert IsListed(w, c);
    }
    forall p | p in r.things
      ensures ListIsTrue(r.things[p].cameras, p, r.cams)
    {
      assert ListIsTrue(w.things[p].cameras, p, w.cams);
    }
  }

  function Vanished(w: World, o: Id): World
    requires o in w.things
  {
    if w.things[o].inWorld then w else World(w.things - {o}, w.cams - {o})
  }

  function Crossed(w: World, o: Id, grid: Grid): World
    requires Linked(w) && o in w.things
  {
    if !w.things[o].inWorld then w
    else
      PutKeeps(w, o, w.things[o].(grid := Some(grid)));
      At(w.(things := w.things[o := w.things[o].(grid := Some(grid))]), o, Moved)
  }

  function Next(w: World, e: Event): World
    requires Linked(w)
  {
    match e
    case Appear(id, player, viewable, flagged) => Appeared(w, id, player, viewable, flagged)
    case Arrive(id, place, grid) => if id in w.things then Arrived(w, id, place, grid) else w
    case Depart(id) => if id in w.things then Departed(w, id) else w
    case Vanish(id) => if id in w.things then Vanished(w, id) else w
    case Look(c, at) => if c in w.cams && at in w.things then SetView(w, c, at) else w
    case LookHome(c) => if c in w.cams then ResetView(w, c) else w
    case Cross(id, grid) => if id in w.things then Crossed(w, id, grid) else w
    case Blink(id, blind) => if id in w.things then At(w, id, VisibilityChanged(blind)) else w
    case Stir(id) => if id in w.things then At(w, id, Refresh) else w
  }

  // ----- Every event keeps the world valid -----

  lemma FollowsAfter(w: World, r: World, cs: seq<Id>, h: Handler, o: Id)
    requires Wf(w) && PartWay(w, r, cs, [], h, o)
    requires forall c :: c in w.cams && (c !in cs || h.Refresh? || h.VisibilityChanged?) ==> Follows(w, c)
    requires forall c :: c in cs ==> c in w.cams && w.cams[c].source == o
    ensures AllFollow(r)
  {
    hide Linked, KeepsListed, ListsBy;
    LinkedWf(r);
    forall c | c in r.cams
      ensures Follows(r, c)
    {
      if c in cs {
        assert Treated(w.cams[c], c, h, o, r);
        assert Same(w.things[o], r.things[o]);
      } else {
        assert r.cams[c] == w.cams[c];
        assert Same(w.things[w.cams[c].source], r.things[w.cams[c].source]);
      }
    }
  }

  lemma PlacedStill(t: Thing, r: Thing)
    requires Same(t, r) && Placed(t) && (Listed(t) ==> Listed(r))
    ensures Placed(r)
  {
  }

  predicate FollowElsewhere(w: World, o: Id)
  {
    Wf(w) && forall c :: c in w.cams && w.cams[c].source != o ==> Follows(w, c)
  }

  predicate PlacedElsewhere(w: World, o: Id)
  {
    forall p :: p in w.things && p != o ==> Placed(w.things[p])
  }

  lemma Changed(w: World, o: Id, t: Thing)
    requires AllFollow(w) && AllPlaced(w) && o in w.things
    ensures var v := w.(things := w.things[o := t]); FollowElsewhere(v, o) && PlacedElsewhere(v, o)
  {
    var v := w.(things := w.things[o := t]);
    hide Placed;
    forall c | c in v.cams && v.cams[c].source != o
      ensures Follows(v, c)
    {
      assert Follows(w, c);
    }
  }

  lemma PlacedAfter(w: World, r: World, o: Id)
    requires SamePlaces(w, r) && KeepsListed(w, r) && o in w.things
    ensures PlacedElsewhere(w, o) ==> PlacedElsewhere(r, o)
    ensures Placed(w.things[o]) ==> Placed(r.things[o])
  {
    hide Placed, Listed, Same;
    forall p | p in w.things && Placed(w.things[p])
      ensures Placed(r.things[p])
    {
      PlacedStill(w.things[p], r.things[p]);
    }
  }

  /** What a viewpoint's event keeps, given that the cameras it reaches are those that need it. */
  lemma AtKeeps(w: World, o: Id, h: Handler)
    requires Linked(w) && o in w.things && Fits(h, w.things[o])
    requires if h.Refresh? || h.VisibilityChanged? then AllFollow(w) else FollowElsewhere(w, o)
    ensures var r := At(w, o, h);
            && Linked(r) && AllFollow(r) && w.things.Keys == r.things.Keys && w.cams.Keys == r.cams.Keys
            && Same(w.things[o], r.things[o]) && (r.things[o].listed ==> w.things[o].listed)
            && (PlacedElsewhere(w, o) ==> PlacedElsewhere(r, o))
            && (Placed(w.things[o]) ==> Placed(r.things[o]))
  {
    var cs, r := w.things[o].cameras, At(w, o, h);
    EveryCameraIsCalled(w, h, o);
    OnList(w, o);
    Elsewhere(w, o);
    LinkedWf(w);
    hide Linked, HandleAll, Placed, Listed, Same, Reached, Fits, PlacedElsewhere;
    PlacedAfter(w, r, o);
    hide KeepsListed;
    assert forall c :: c in w.cams && (c !in cs || h.Refresh? || h.VisibilityChanged?) ==> Follows(w, c);
    hide Follows;
    FollowsAfter(w, r, cs, h, o);
  }

  lemma Elsewhere(w: World, o: Id)
    requires Linked(w) && o in w.things
    ensures forall c :: c in w.cams && c !in w.things[o].cameras ==> w.cams[c].source != o
  {
    hide Once, Near, ListIsTrue;
    assert forall c :: c in w.cams ==> IsListed(w, c);
  }

  /** Nobody but its owner looks from an object outside the world. */
  lemma OutIsAlone(w: World, o: Id)
    requires Linked(w) && o in w.things && !w.things[o].inWorld
    ensures w.things[o].cameras == (if o in w.cams then [o] else [])
    ensures o in w.cams ==> w.cams[o].source == o
  {
    OnList(w, o);
    Elsewhere(w, o);
    var cs := w.things[o].cameras;
    forall c | c in cs
      ensures c == o
    {
      hide Once;
      assert c in w.cams && w.cams[c].source == o;
    }
    assert o in w.cams ==> w.cams[o].source == o;
    assert o in w.cams <==> o in cs;
    AllOne(cs, o);
  }

  lemma {:induction false} AllOne(cs: seq<Id>, o: Id)
    requires Once(cs) && forall c :: c in cs ==> c == o
    ensures cs == if o in cs then [o] else []
  {
    if cs != [] {
      var rest := cs[1..];
      assert cs == [cs[0]] + rest && cs[0] !in rest;
      assert forall c :: c in rest ==> c in cs;
      AllOne(rest, o);
      assert cs[0] in cs && o !in rest;
    }
  }

  lemma LookKeeps(w: World, c: Id, obj: Id)
    requires Valid(w) && c in w.cams && obj in w.things
    ensures Valid(SetView(w, c, obj))
  {
    var r := SetView(w, c, obj);
    SetViewKeeps(w, c, obj);
    LinkedWf(w);
    hide Linked;
    if r != w {
      hide SetView, Move;
      MoveIs(w, c, obj);
      hide Placed, Listed, Same, Without;
      AllStillPlaced(w, r);
      hide AllPlaced, KeepsListed, AllFollow;
      StillFollows(w, r, c);
    }
  }

  lemma StillFollows(w: World, r: World, c: Id)
    requires AllFollow(w) && Wf(r) && SamePlaces(w, r) && OthersSame(w, r, c) && c in r.cams && Follows(r, c)
    ensures AllFollow(r)
  {
    hide Same;
    forall d | d in r.cams
      ensures Follows(r, d)
    {
      if d != c {
        assert Follows(w, d) && r.cams[d] == w.cams[d];
        SameGrid(w.things[r.cams[d].source], r.things[r.cams[d].source]);
      }
    }
  }

  lemma AllStillPlaced(w: World, r: World)
    requires SamePlaces(w, r) && KeepsListed(w, r) && AllPlaced(w)
    ensures AllPlaced(r)
  {
    hide Placed, Listed, Same;
    forall p | p in r.things
      ensures Placed(r.things[p])
    {
      PlacedStill(w.things[p], r.things[p]);
    }
  }

  lemma SameGrid(t: Thing, r: Thing)
    requires Same(t, r)
    ensures t.grid == r.grid
  {
  }

  /** An event that puts an object somewhere, with its cameras following. */
  lemma PlaceKeeps(w: World, o: Id, t: Thing, h: Handler)
    requires Valid(w) && o in w.things && t.cameras == w.things[o].cameras && Placed(t) && t.grid.Some?
    requires t.player == w.things[o].player && t.viewable == w.things[o].viewable
    requires w.things[o].inWorld ==> t.inWorld && t.place == w.things[o].place
    requires h.Added? || h.Moved?
    ensures var v := w.(things := w.things[o := t]); Linked(v) && Valid(At(v, o, h))
  {
    var v := w.(things := w.things[o := t]);
    PutKeeps(w, o, t);
    Changed(w, o, t);
    hide Linked, Placed, At, AllFollow, FollowElsewhere;
    AtKeeps(v, o, h);
  }

  lemma ArriveKeeps(w: World, o: Id, place: nat, grid: Grid)
    requires Valid(w) && o in w.things
    ensures Valid(Arrived(w, o, place, grid))
  {
    if !w.things[o].inWorld {
      hide At, Valid;
      PlacedOnArrival(w, o, place, grid);
      PlaceKeeps(w, o, Put(w.things[o], place, grid), Added);
    }
  }

  lemma PlacedOnArrival(w: World, o: Id, place: nat, grid: Grid)
    requires Valid(w) && o in w.things && !w.things[o].inWorld
    ensures Placed(Put(w.things[o], place, grid)) && Linked(w)
  {
    OutIsAlone(w, o);
    OwnersArePlayers(w, o);
    hide Linked, AllFollow;
    assert Placed(w.things[o]);
  }

  lemma OwnersArePlayers(w: World, o: Id)
    requires Linked(w) && o in w.things
    ensures o in w.cams ==> w.things[o].player && w.things[o].viewable
  {
  }

  lemma CrossKeeps(w: World, o: Id, grid: Grid)
    requires Valid(w) && o in w.things
    ensures Valid(Crossed(w, o, grid))
  {
    if w.things[o].inWorld {
      PlacedOnCrossing(w, o, grid);
      hide At, Valid;
      PlaceKeeps(w, o, w.things[o].(grid := Some(grid)), Moved);
    }
  }

  lemma PlacedOnCrossing(w: World, o: Id, grid: Grid)
    requires Valid(w) && o in w.things && w.things[o].inWorld
    ensures Placed(w.things[o].(grid := Some(grid))) && Linked(w)
  {
    hide Linked, AllFollow;
    assert Placed(w.things[o]);
  }

  /** The part of leaving up to where the object itself is out. */
  lemma LeavingKeeps(v: World, o: Id)
    requires Valid(v) && o in v.things && v.things[o].inWorld && (o in v.cams ==> v.cams[o].source == o)
    ensures var u := v.(things := v.things[o := Leaving(v.things[o])]);
            && Linked(u)
            && var r := At(u, o, Removed);
            && Linked(r) && AllFollow(r) && PlacedElsewhere(r, o) && o in r.things
            && Same(u.things[o], r.things[o]) && !r.things[o].listed
            && (o in r.cams ==> r.cams[o].source == o)
            && r.things[o].cameras == (if o in r.cams then [o] else [])
  {
    var u := v.(things := v.things[o := Leaving(v.things[o])]);
    PutKeeps(v, o, Leaving(v.things[o]));
    Changed(v, o, Leaving(v.things[o]));
    var r := At(u, o, Removed);
    Elsewhere(u, o);
    OnList(u, o);
    OnlyItsOwnIsLeft(u, o);
    OwnIsOnList(u, o);
    hide Linked, Placed, At, AllFollow, FollowElsewhere, Same, Once, HandleAll, AllPlaced;
    AtKeeps(u, o, Removed);
  }

  lemma OwnIsOnList(w: World, o: Id)
    requires Linked(w) && o in w.things && (o in w.cams ==> w.cams[o].source == o)
    ensures o in w.cams <==> o in w.things[o].cameras
  {
    OnList(w, o);
    Elsewhere(w, o);
  }

  lemma OutKeeps(w: World, o: Id)
    requires Linked(w) && o in w.things && w.things[o].cameras == (if o in w.cams then [o] else [])
    requires o in w.cams ==> w.cams[o].source == o
    ensures Linked(w.(things := w.things[o := Out(w.things[o])]))
  {
    var r := w.(things := w.things[o := Out(w.things[o])]);
    Elsewhere(w, o);
    OutNear(w, o);
    hide Linked, Near;
    SameLists(w, r);
  }

  lemma OutNear(w: World, o: Id)
    requires Linked(w) && o in w.things && w.things[o].cameras == (if o in w.cams then [o] else [])
    requires o in w.cams ==> w.cams[o].source == o
    requires forall c :: c in w.cams && c !in w.things[o].cameras ==> w.cams[c].source != o
    ensures Near(w.(things := w.things[o := Out(w.things[o])]))
  {
    hide OnTheirLists, ListsAreTrue;
  }

  lemma DepartKeeps(w: World, o: Id)
    requires Valid(w) && o in w.things
    ensures Valid(Departed(w, o))
  {
    if w.things[o].inWorld {
      var v := if o in w.cams then ResetView(w, o) else w;
      if o in w.cams {
        OwnersArePlayers(w, o);
        LookKeeps(w, o, o);
        BackHome(w, o);
      }
      hide ResetView, Valid;
      RestOfDeparture(v, o);
    }
  }

  lemma RestOfDeparture(v: World, o: Id)
    requires Valid(v) && o in v.things && v.things[o].inWorld && (o in v.cams ==> v.cams[o].source == o)
    ensures Linked(v.(things := v.things[o := Leaving(v.things[o])]))
    ensures var r := At(v.(things := v.things[o := Leaving(v.things[o])]), o, Removed);
            Valid(r.(things := r.things[o := Out(r.things[o])]))
  {
    LeavingKeeps(v, o);
    var r := At(v.(things := v.things[o := Leaving(v.things[o])]), o, Removed);
    OutKeeps(r, o);
    OwnersArePlayers(r, o);
    hide Linked, Placed, At, Same, Out, Leaving, AllFollow;
    SamePlayer(Leaving(v.things[o]), r.things[o]);
    LeavingPlayer(v.things[o]);
    PlacedOut(v.things[o], r.things[o], o in r.cams);
    OutFollows(r, o);
  }

  lemma SamePlayer(t: Thing, r: Thing)
    requires Same(t, r)
    ensures t.player == r.player
  {
  }

  lemma LeavingPlayer(t: Thing)
    ensures Leaving(t).player == t.player
  {
  }

  lemma OutFollows(r: World, o: Id)
    requires AllFollow(r) && o in r.things
    ensures AllFollow(r.(things := r.things[o := Out(r.things[o])]))
  {
    var out := r.(things := r.things[o := Out(r.things[o])]);
    forall c | c in out.cams
      ensures Follows(out, c)
    {
      assert Follows(r, c);
    }
  }

  lemma PlacedOut(t: Thing, r: Thing, own: bool)
    requires Placed(t) && Same(Leaving(t), r) && !r.listed && (own ==> t.player) && (!own ==> r.cameras == [])
    ensures Placed(Out(r))
  {
  }

  lemma BackHome(w: World, o: Id)
    requires Linked(w) && o in w.cams && w.things[o].inWorld && w.things[o].viewable
    ensures var v := ResetView(w, o); v.cams[o].source == o && v.things.Keys == w.things.Keys && v.things[o].inWorld
  {
    if w.cams[o].source != o {
      MoveIs(w, o, o);
      hide Move;
      assert Same(w.things[o], SetView(w, o, o).things[o]);
    }
  }

  lemma VanishKeeps(w: World, o: Id)
    requires Valid(w) && o in w.things
    ensures Valid(Vanished(w, o))
  {
    if !w.things[o].inWorld {
      OutIsAlone(w, o);
      Elsewhere(w, o);
      LinkedWf(w);
      var r := Vanished(w, o);
      assert AllPlaced(r) && Wf(r) && Near(r) by { hide Once, Placed, OnTheirLists, ListsAreTrue; }
      hide Placed, Near, Once;
      assert OnTheirLists(r) && AllFollow(r) by {
        hide ListsAreTrue;
        forall c | c in r.cams
          ensures IsListed(r, c) && Follows(r, c)
        {
          assert IsListed(w, c) && Follows(w, c);
        }
      }
      assert ListsAreTrue(r) by {
        hide OnTheirLists;
        forall p | p in r.things
          ensures ListIsTrue(r.things[p].cameras, p, r.cams)
        {
          assert ListIsTrue(w.things[p].cameras, p, w.cams);
          assert o !in w.things[p].cameras;
        }
      }
    }
  }

  lemma AppearKeeps(w: World, id: Id, player: bool, viewable: bool, flagged: bool)
    requires Valid(w)
    ensures Valid(Appeared(w, id, player, viewable, flagged))
  {
    if id !in w.things {
      LinkedWf(w);
      var r := Appeared(w, id, player, viewable, flagged);
      assert id !in w.cams by { hide OnTheirLists, ListsAreTrue, AllPlaced, Near; }
      AppearPlaced(w, id, player, viewable, flagged);
      hide Near, AllPlaced;
      assert r.things - {id} == w.things && r.cams - {id} == w.cams by { hide Linked, AllFollow, Wf; }
      hide Appeared, OnTheirLists, ListsAreTrue, AllFollow, Wf;
      AppearListed(w, r, id);
      AppearLists(w, r, id);
    }
  }

  lemma AppearPlaced(w: World, id: Id, player: bool, viewable: bool, flagged: bool)
    requires Wf(w) && AllPlaced(w) && Near(w) && id !in w.things
    ensures var r := Appeared(w, id, player, viewable, flagged);
            && AllPlaced(r) && Near(r)
            && (id in r.cams ==> IsListed(r, id) && Follows(r, id)) && ListIsTrue(r.things[id].cameras, id, r.cams)
  {
    var r := Appeared(w, id, player, viewable, flagged);
    assert AllPlaced(r) by { hide Near, Wf; }
    hide AllPlaced;
  }

  lemma AppearListed(w: World, r: World, id: Id)
    requires OnTheirLists(w) && AllFollow(w) && id !in w.things && id in r.things && Wf(r)
    requires r.things - {id} == w.things && r.cams - {id} == w.cams
    requires id in r.cams ==> IsListed(r, id) && Follows(r, id)
    ensures OnTheirLists(r) && AllFollow(r)
  {
    forall c | c in r.cams
      ensures IsListed(r, c) && Follows(r, c)
    {
      if c != id {
        assert c in r.cams - {id};
        assert IsListed(w, c) && Follows(w, c);
        assert r.cams[c].source in r.things - {id};
      }
    }
  }

  lemma AppearLists(w: World, r: World, id: Id)
    requires ListsAreTrue(w) && id !in w.cams && id in r.things && ListIsTrue(r.things[id].cameras, id, r.cams)
    requires r.things - {id} == w.things && r.cams - {id} == w.cams
    ensures ListsAreTrue(r)
  {
    hide Once;
    forall p | p in r.things
      ensures ListIsTrue(r.things[p].cameras, p, r.cams)
    {
      if p != id {
        assert p in r.things - {id};
        assert ListIsTrue(w.things[p].cameras, p, w.cams);
        assert forall c :: c in w.cams ==> c in r.cams - {id};
      }
    }
  }

  /** Every event keeps the world valid: lists and sources agree, grids follow, activity has a reason. */
  lemma EventKeeps(w: World, e: Event)
    requires Valid(w)
    ensures Valid(Next(w, e))
  {
    hide Linked, Placed, Appeared, Arrived, Departed, Vanished, Crossed, At, SetView;
    match e
    case Appear(id, player, viewable, flagged) => AppearKeeps(w, id, player, viewable, flagged);
    case Arrive(id, place, grid) => if id in w.things { ArriveKeeps(w, id, place, grid); }
    case Depart(id) => if id in w.things { DepartKeeps(w, id); }
    case Vanish(id) => if id in w.things { VanishKeeps(w, id); }
    case Look(c, at) => if c in w.cams && at in w.things { LookKeeps(w, c, at); }
    case LookHome(c) => if c in w.cams { LinkedWf(w); LookKeeps(w, c, c); }
    case Cross(id, grid) => if id in w.things { CrossKeeps(w, id, grid); }
    case Blink(id, blind) => if id in w.things { AtKeepsValid(w, id, VisibilityChanged(blind)); }
    case Stir(id) => if id in w.things { AtKeepsValid(w, id, Refresh); }
  }

  lemma AtKeepsValid(w: World, o: Id, h: Handler)
    requires Valid(w) && o in w.things && (h.VisibilityChanged? || h.Refresh?)
    ensures Valid(At(w, o, h))
  {
    hide Linked, Placed, At;
    AtKeeps(w, o, h);
  }

  function After(w: World, events: seq<Event>): (end: World)
    requires Valid(w)
    ensures Valid(end)
    decreases |events|
  {
    if events == [] then w else EventKeeps(w, events[0]); After(Next(w, events[0]), events[1..])
  }

  /** In every state a world can come to from nothing: a camera is on exactly one list, once, its source's. */
  lemma OnOneList(events: seq<Event>, c: Id, o: Id)
    ensures var w := After(World(map[], map[]), events);
            c in w.cams && o in w.things ==>
              && (c in w.things[o].cameras <==> w.cams[c].source == o)
              && multiset(w.things[o].cameras)[c] == if w.cams[c].source == o then 1 else 0
  {
    var w := After(World(map[], map[]), events);
    if c in w.cams && o in w.things {
      hide Once;
      OnList(w, o);
      Elsewhere(w, o);
      OnceCounts(w.things[o].cameras, c);
    }
  }

  lemma {:induction false} OnceCounts(cs: seq<Id>, c: Id)
    requires Once(cs)
    ensures multiset(cs)[c] == if c in cs then 1 else 0
  {
    if cs != [] {
      var init := cs[..|cs| - 1];
      OnceCounts(init, c);
      assert cs == init + [cs[|cs| - 1]];
      assert cs[|cs| - 1] !in init;
    }
  }

  /** What has left the world looks from nowhere and is looked from by no one else; so its camera may go with it. */
  lemma GoneIsAlone(events: seq<Event>, o: Id)
    ensures var w := After(World(map[], map[]), events);
            o in w.things && !w.things[o].inWorld ==>
              && w.things[o].cameras == (if o in w.cams then [o] else [])
              && (o in w.cams ==> w.cams[o].source == o)
  {
    var w := After(World(map[], map[]), events);
    if o in w.things && !w.things[o].inWorld {
      OutIsAlone(w, o);
    }
  }
}
