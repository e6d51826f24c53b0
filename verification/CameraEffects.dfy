/** What each event does to the objects and the cameras, event by event, in every world that can be reached. */
module CameraEffects {
  import opened Wrappers
  import opened Cameras
  import opened CameraEvents

  /** Nothing about any object changed but its list and whether it is active. */
  predicate StandsStill(w: World, r: World)
  {
    && r.things.Keys == w.things.Keys && r.cams.Keys == w.cams.Keys
    && forall o :: o in w.things ==> Still(w.things[o], r.things[o])
  }

  predicate Still(t: Thing, u: Thing)
  {
    && u.player == t.player && u.viewable == t.viewable && u.flagged == t.flagged
    && u.place == t.place && u.inWorld == t.inWorld && u.grid == t.grid
  }

  predicate OthersStay(w: World, r: World, o: Id)
    requires r.cams.Keys == w.cams.Keys
  {
    forall c :: c in w.cams && w.cams[c].source != o ==> r.cams[c] == w.cams[c]
  }

  /** All cameras that look from the object are treated, and no other. */
  lemma AtDoes(w: World, o: Id, h: Handler)
    requires Linked(w) && o in w.things && Fits(h, w.things[o])
    ensures var r := At(w, o, h);
            && Wf(r) && StandsStill(w, r) && OthersStay(w, r, o)
            && forall c :: c in w.cams && w.cams[c].source == o ==> Treated(w.cams[c], c, h, o, r)
  {
    EveryCameraIsCalled(w, h, o);
    OnList(w, o);
    Elsewhere(w, o);
    hide Linked, Treated, KeepsListed, ListsBy, HandleAll, Fits;
    var r := At(w, o, h);
    assert SamePlaces(w, r);
    assert forall p :: p in w.things ==> Same(w.things[p], r.things[p]);
  }

  /** What treating comes to, for a camera that looks from the object. */
  lemma TreatedIs(was: Camera, c: Id, h: Handler, o: Id, r: World)
    requires o in r.things && c in r.cams && r.cams[c].source in r.things && was.source == o && Treated(was, c, h, o, r)
    ensures var k, shown := r.cams[c], r.things[o].place.Some?;
            && (h.Moved? ==> k == was.(grid := r.things[o].grid))
            && (h.Refresh? ==> k == if shown then was.(refreshed := was.refreshed + 1) else was)
            && (h.Removed? ==> k.source == c && (c == o ==> k.grid == r.things[o].grid))
            && (h.VisibilityChanged? && (c !in h.blind || c == o) ==> k == was)
            && (h.VisibilityChanged? && c in h.blind ==> k.source == c)
  {
  }

  lemma ValidIs(w: World)
    requires Valid(w)
    ensures Linked(w) && Wf(w)
    ensures forall c :: c in w.cams ==> c in w.things && w.cams[c].source in w.things
  {
  }

  lemma PlacedIs(w: World, o: Id)
    requires Valid(w) && o in w.things
    ensures Placed(w.things[o])
  {
    hide Linked, AllFollow, Placed;
  }

  // ----- Looking -----

  /** A player may look from an object on the same map that has a viewpoint, and is not looked from already. */
  predicate MayLook(w: World, c: Id, at: Id)
  {
    && c in w.cams && c in w.things && at in w.things && w.cams[c].source != at
    && w.things[c].inWorld && w.things[at].inWorld && w.things[c].place == w.things[at].place && w.things[at].viewable
  }

  /**
   Looking from it takes the camera off the list it was on, in whatever place, puts it at the end of the other's, and shows
   the owner what is there; the object looked from becomes active, and the one before may cease to be.
   */
  lemma LookDoes(w: World, c: Id, at: Id, head: seq<Id>, tail: seq<Id>)
    requires Valid(w) && MayLook(w, c, at) && w.things[w.cams[c].source].cameras == head + [c] + tail
    ensures var r, from := Next(w, Look(c, at)), w.cams[c].source;
            && StandsStill(w, r)
            && r.cams == w.cams[c := Camera(at, w.things[at].grid, w.cams[c].refreshed + 1)]
            && r.things[from].cameras == head + tail && r.things[at].cameras == w.things[at].cameras + [c]
            && (!w.things[at].player ==> r.things[at].listed)
            && (!w.things[from].player && !w.things[from].flagged ==> (r.things[from].listed <==> head + tail != []))
            && (forall o :: o in w.things && o != from && o != at ==> r.things[o] == w.things[o])
  {
    var from, r := w.cams[c].source, Next(w, Look(c, at));
    ValidIs(w);
    OnList(w, from);
    MovesThere(w, c, at);
    LookKeeps(w, c, at);
    LookIs(w, c, at);
    WithoutHere(head, c, tail);
    SourceInWorld(w, c);
    PlacedIs(w, at);
    Parted(w, c, at);
    if !w.things[at].player { ActiveIs(r, at); }
    if !w.things[from].player { ActiveIs(r, from); }
    hide Valid, Linked, Once, Wf, Next, SetView, Without, Left, Joined, Looking;
  }

  lemma ActiveIs(w: World, o: Id)
    requires Valid(w) && o in w.things && w.things[o].inWorld && !w.things[o].player
    ensures w.things[o].listed <==> w.things[o].flagged || w.things[o].cameras != []
  {
    PlacedIs(w, o);
    hide Valid;
  }

  /** After the move. */
  lemma Parted(w: World, c: Id, at: Id)
    requires Wf(w) && MayLook(w, c, at) && w.things[w.cams[c].source].inWorld
    requires w.things[at].place.Some?
    ensures var from, r := w.cams[c].source, SetView(w, c, at);
            && StandsStill(w, r)
            && r.cams == w.cams[c := Camera(at, w.things[at].grid, w.cams[c].refreshed + 1)]
            && r.things[from].cameras == Without(w.things[from].cameras, c) && r.things[at].cameras == w.things[at].cameras + [c]
            && (forall o :: o in w.things && o != from && o != at ==> r.things[o] == w.things[o])
  {
    var from, r := w.cams[c].source, SetView(w, c, at);
    MovesThere(w, c, at);
    LookingIs(w.cams[c], at, w.things[at]);
    LeftIs(w.things[from], c);
    JoinedIs(w.things[at], c);
    hide SetView, Without, Left, Joined, Looking, Wf, Still;
    forall o | o in w.things
      ensures Still(w.things[o], r.things[o])
    {
      TwoUpdates(w.things, from, Left(w.things[from], c), at, Joined(w.things[at], c), o);
      if o != from && o != at { StillSame(w.things[o]); }
    }
  }

  lemma TwoUpdates(m: map<Id, Thing>, from: Id, a: Thing, at: Id, b: Thing, o: Id)
    requires o in m
    ensures m[from := a][at := b][o] == if o == at then b else if o == from then a else m[o]
  {
  }

  lemma StillSame(t: Thing)
    ensures Still(t, t)
  {
  }

  lemma LookingIs(k: Camera, at: Id, t: Thing)
    requires t.place.Some?
    ensures Looking(k, at, t) == Camera(at, t.grid, k.refreshed + 1)
  {
  }

  lemma LeftIs(t: Thing, c: Id)
    ensures Still(t, Left(t, c)) && Left(t, c).cameras == Without(t.cameras, c)
  {
    hide Without;
  }

  lemma JoinedIs(t: Thing, c: Id)
    ensures Still(t, Joined(t, c)) && Joined(t, c).cameras == t.cameras + [c]
  {
  }

  lemma LookIs(w: World, c: Id, at: Id)
    requires Linked(w) && c in w.cams && at in w.things
    ensures Wf(w) && Next(w, Look(c, at)) == SetView(w, c, at)
  {
    LinkedWf(w);
    hide Linked, SetView;
  }

  lemma MovesThere(w: World, c: Id, at: Id)
    requires Wf(w) && MayLook(w, c, at)
    ensures var from, r := w.cams[c].source, SetView(w, c, at);
            && r.things == w.things[from := Left(w.things[from], c)][at := Joined(w.things[at], c)]
            && r.cams == w.cams[c := Looking(w.cams[c], at, w.things[at])]
  {
    hide Left, Joined, Looking;
  }

  /** What is looked from by another is in the world, and so is the looker. */
  lemma SourceInWorld(w: World, c: Id)
    requires Valid(w) && c in w.cams && c in w.things && w.things[c].inWorld
    ensures w.cams[c].source in w.things && w.things[w.cams[c].source].inWorld
  {
    hide AllFollow, AllPlaced, OnTheirLists, ListsAreTrue;
  }

  /** Otherwise nothing happens. */
  lemma LookFails(w: World, c: Id, at: Id)
    requires Valid(w) && !MayLook(w, c, at)
    ensures Next(w, Look(c, at)) == w
  {
    hide Linked, AllFollow, AllPlaced;
    LinkedWf(w);
  }

  /** Going home is looking from oneself. */
  lemma LookHomeIsLook(w: World, c: Id)
    requires Valid(w) && c in w.cams
    ensures Next(w, LookHome(c)) == Next(w, Look(c, c))
  {
    LinkedWf(w);
    hide Linked, AllFollow, AllPlaced;
  }

  // ----- Coming and going -----

  /** A new object, a player with a camera that looks from the player. */
  lemma AppearDoes(w: World, id: Id, player: bool, viewable: bool, flagged: bool)
    requires Valid(w)
    ensures var r := Next(w, Appear(id, player, viewable, flagged));
            if id in w.things then r == w
            else
              && r.things == w.things[id := Thing(player, player || viewable, player || flagged, None, false, false, None,
                                                  if player then [id] else [])]
              && r.cams == if player then w.cams[id := Camera(id, None, 0)] else w.cams
  {
  }

  /** It comes to a place and a grid, and whoever looks from it, which can only be itself, gets the grid and a picture. */
  lemma ArriveDoes(w: World, o: Id, place: nat, grid: Grid)
    requires Valid(w) && o in w.things && !w.things[o].inWorld
    ensures var t, r := w.things[o], Next(w, Arrive(o, place, grid));
            && r.things.Keys == w.things.Keys && r.cams.Keys == w.cams.Keys && Wf(r)
            && r.things[o].place == Some(place) && r.things[o].grid == Some(grid) && r.things[o].inWorld
            && r.things[o].player == t.player && r.things[o].viewable == t.viewable && r.things[o].flagged == t.flagged
            && (!t.player ==> (r.things[o].listed <==> t.flagged || r.things[o].cameras != []))
            && (o in w.cams ==> r.cams[o] == Camera(o, Some(grid), w.cams[o].refreshed + 1))
            && (forall c :: c in w.cams && c != o ==> r.cams[c] == w.cams[c])
            && (forall p :: p in w.things && p != o ==> r.things[p].place == w.things[p].place
                                                        && r.things[p].inWorld == w.things[p].inWorld
                                                        && r.things[p].grid == w.things[p].grid)
  {
    var t := Put(w.things[o], place, grid);
    var v, r := w.(things := w.things[o := t]), Next(w, Arrive(o, place, grid));
    ValidIs(w);
    OutIsAlone(w, o);
    Elsewhere(w, o);
    PutKeeps(w, o, t);
    ArriveIs(w, o, place, grid, v);
    AtDoes(v, o, Added);
    ArriveKeeps(w, o, place, grid);
    if !w.things[o].player && r.things[o].inWorld && !r.things[o].player { ActiveIs(r, o); }
    hide Valid, Linked, At, Next, Wf, Treated, Still, Fits;
    assert Still(t, r.things[o]);
    StillIs(t, r.things[o]);
    if o in w.cams { AddedIs(w.cams[o], o, r); }
    forall p | p in w.things && p != o
      ensures Still(w.things[p], r.things[p])
    {
      assert v.things[p] == w.things[p];
    }
    OthersStill(w, r, o);
  }

  lemma OthersStill(w: World, r: World, o: Id)
    requires w.things.Keys == r.things.Keys && forall p :: p in w.things && p != o ==> Still(w.things[p], r.things[p])
    ensures forall p :: p in w.things && p != o ==> r.things[p].place == w.things[p].place
                                                    && r.things[p].inWorld == w.things[p].inWorld
                                                    && r.things[p].grid == w.things[p].grid
  {
  }

  lemma StillIs(t: Thing, u: Thing)
    requires Still(t, u)
    ensures u.place == t.place && u.inWorld == t.inWorld && u.grid == t.grid
    ensures u.player == t.player && u.viewable == t.viewable && u.flagged == t.flagged
  {
  }

  lemma AddedIs(was: Camera, o: Id, r: World)
    requires o in r.things && o in r.cams && r.cams[o].source in r.things && was.source == o && Treated(was, o, Added, o, r)
    requires r.things[o].place.Some?
    ensures r.cams[o] == Camera(o, r.things[o].grid, was.refreshed + 1)
  {
  }

  lemma ArriveIs(w: World, o: Id, place: nat, grid: Grid, v: World)
    requires Linked(w) && o in w.things && !w.things[o].inWorld && v == w.(things := w.things[o := Put(w.things[o], place, grid)])
    requires Linked(v)
    ensures Next(w, Arrive(o, place, grid)) == At(v, o, Added)
  {
    hide Linked, At;
  }

  /** It moves to another grid, and everyone who looks from it with it. */
  lemma CrossDoes(w: World, o: Id, grid: Grid)
    requires Valid(w) && o in w.things && w.things[o].inWorld
    ensures var r := Next(w, Cross(o, grid));
            && r.things.Keys == w.things.Keys && r.cams.Keys == w.cams.Keys && r.things[o].grid == Some(grid)
            && (forall c :: c in w.cams ==>
                  r.cams[c] == if w.cams[c].source == o then w.cams[c].(grid := Some(grid)) else w.cams[c])
  {
    var t := w.things[o].(grid := Some(grid));
    var v, r := w.(things := w.things[o := t]), Next(w, Cross(o, grid));
    ValidIs(w);
    hide Valid, Linked;
    PutKeeps(w, o, t);
    AtDoes(v, o, Moved);
    CrossIs(w, o, grid, t);
    hide At, Next, Wf, Treated, Still, Fits;
    assert Still(v.things[o], r.things[o]) && v.things[o] == t;
    SameGrid(t, r.things[o]);
    forall c | c in w.cams
      ensures r.cams[c] == if w.cams[c].source == o then w.cams[c].(grid := Some(grid)) else w.cams[c]
    {
      assert v.cams[c] == w.cams[c];
      if w.cams[c].source == o { TreatedIs(w.cams[c], c, Moved, o, r); }
    }
  }

  lemma SameGrid(t: Thing, u: Thing)
    requires Still(t, u)
    ensures u.grid == t.grid && u.place == t.place
  {
  }

  lemma CrossIs(w: World, o: Id, grid: Grid, t: Thing)
    requires Linked(w) && o in w.things && w.things[o].inWorld && t == w.things[o].(grid := Some(grid))
    requires Linked(w.(things := w.things[o := t]))
    ensures Next(w, Cross(o, grid)) == At(w.(things := w.things[o := t]), o, Moved)
  {
    hide Linked, At;
  }

  /** It can no longer be seen by some players: those of them who look from it are sent home, and nobody else. */
  lemma BlinkDoes(w: World, o: Id, blind: set<Id>)
    requires Valid(w) && o in w.things
    ensures var r := Next(w, Blink(o, blind));
            && StandsStill(w, r)
            && (forall c :: c in w.cams ==>
                  r.cams[c].source == if w.cams[c].source == o && c in blind then c else w.cams[c].source)
            && (forall c :: c in w.cams && r.cams[c].source == w.cams[c].source ==> r.cams[c] == w.cams[c])
  {
    ValidIs(w);
    hide Valid, Linked;
    AtDoes(w, o, VisibilityChanged(blind));
    var r := At(w, o, VisibilityChanged(blind));
    hide At, Wf, Treated, Still;
    forall c | c in w.cams && w.cams[c].source == o
      ensures r.cams[c].source == if c in blind then c else o
      ensures c !in blind || c == o ==> r.cams[c] == w.cams[c]
    {
      TreatedIs(w.cams[c], c, VisibilityChanged(blind), o, r);
    }
  }

  /** Its looks change, and everyone who looks from it gets a new picture. */
  lemma StirDoes(w: World, o: Id)
    requires Valid(w) && o in w.things
    ensures var r := Next(w, Stir(o));
            && StandsStill(w, r)
            && (forall c :: c in w.cams ==>
                  r.cams[c] == if w.cams[c].source == o && w.things[o].place.Some?
                               then w.cams[c].(refreshed := w.cams[c].refreshed + 1) else w.cams[c])
  {
    ValidIs(w);
    hide Valid, Linked;
    AtDoes(w, o, Refresh);
    var r := At(w, o, Refresh);
    hide At, Wf, Treated, Still;
    assert Still(w.things[o], r.things[o]);
    SameGrid(w.things[o], r.things[o]);
    forall c | c in w.cams
      ensures r.cams[c] == if w.cams[c].source == o && w.things[o].place.Some?
                           then w.cams[c].(refreshed := w.cams[c].refreshed + 1) else w.cams[c]
    {
      if w.cams[c].source == o { TreatedIs(w.cams[c], c, Refresh, o, r); }
    }
  }

  /** It leaves the world: its own view has come home, and everyone else's who looked from it is sent home. */
  lemma DepartDoes(w: World, o: Id)
    requires Valid(w) && o in w.things && w.things[o].inWorld
    ensures var r := Next(w, Depart(o));
            && r.things.Keys == w.things.Keys && r.cams.Keys == w.cams.Keys
            && !r.things[o].inWorld && r.things[o].place == None && r.things[o].grid == None
            && (o in w.cams ==> r.cams[o].source == o && r.cams[o].grid == None)
            && (forall c :: c in w.cams && c != o ==>
                  r.cams[c].source == if w.cams[c].source == o then c else w.cams[c].source)
  {
    ValidIs(w);
    HomeFirst(w, o);
    hide Valid, Linked, Wf, ResetView, At, Next, OnItsWay;
    var v := if o in w.cams then ResetView(w, o) else w;
    OnItsWayIs(v, o);
    DepartIs(w, o, v);
    SentHome(OnItsWay(v, o), o);
    DepartFacts(w, o, v, At(OnItsWay(v, o), o, Removed), Next(w, Depart(o)));
  }

  /** The object on its way out. */
  function OnItsWay(v: World, o: Id): World
    requires o in v.things
  {
    v.(things := v.things[o := Leaving(v.things[o])])
  }

  lemma OnItsWayIs(v: World, o: Id)
    requires Linked(v) && o in v.things
    ensures var u := OnItsWay(v, o);
            Linked(u) && u.cams == v.cams && u.things.Keys == v.things.Keys && o in u.things && u.things[o].grid == None
  {
    PutKeeps(v, o, Leaving(v.things[o]));
    hide Linked;
  }

  /** The view comes home, the others are sent home, and the object is out. */
  lemma DepartFacts(w: World, o: Id, v: World, m: World, r: World)
    requires o in w.things && v.things.Keys == w.things.Keys && v.cams.Keys == w.cams.Keys
    requires (o in w.cams ==> v.cams[o].source == o) && forall c :: c in w.cams && c != o ==> v.cams[c] == w.cams[c]
    requires m.things.Keys == v.things.Keys && m.cams.Keys == v.cams.Keys && m.things[o].grid == None
    requires forall c :: c in v.cams && v.cams[c].source != o ==> m.cams[c] == v.cams[c]
    requires forall c :: c in v.cams && v.cams[c].source == o ==> m.cams[c].source == c && (c == o ==> m.cams[c].grid == None)
    requires r == m.(things := m.things[o := Out(m.things[o])])
    ensures && r.things.Keys == w.things.Keys && r.cams.Keys == w.cams.Keys
            && !r.things[o].inWorld && r.things[o].place == None && r.things[o].grid == None
            && (o in w.cams ==> r.cams[o].source == o && r.cams[o].grid == None)
            && (forall c :: c in w.cams && c != o ==>
                  r.cams[c].source == if w.cams[c].source == o then c else w.cams[c].source)
  {
  }

  /** A removal sends home all who look from the object, but its own camera. */
  lemma SentHome(u: World, o: Id)
    requires Linked(u) && o in u.things && u.things[o].grid == None
    ensures var r := At(u, o, Removed);
            && r.things.Keys == u.things.Keys && r.cams.Keys == u.cams.Keys && r.things[o].grid == None
            && (forall c :: c in u.cams && u.cams[c].source != o ==> r.cams[c] == u.cams[c])
            && (forall c :: c in u.cams && u.cams[c].source == o ==>
                  r.cams[c].source == c && (c == o ==> r.cams[c].grid == None))
  {
    AtDoes(u, o, Removed);
    hide Linked, At, Wf, Treated, Still, Fits;
    var r := At(u, o, Removed);
    assert Still(u.things[o], r.things[o]);
    SameGrid(u.things[o], r.things[o]);
    forall c | c in u.cams && u.cams[c].source == o
      ensures r.cams[c].source == c && (c == o ==> r.cams[c].grid == None)
    {
      TreatedIs(u.cams[c], c, Removed, o, r);
    }
  }

  lemma DepartIs(w: World, o: Id, v: World)
    requires Linked(w) && Wf(w) && o in w.things && w.things[o].inWorld && v == if o in w.cams then ResetView(w, o) else w
    requires Linked(v) && o in v.things && Linked(OnItsWay(v, o))
    ensures o in OnItsWay(v, o).things
    ensures var m := At(OnItsWay(v, o), o, Removed);
            o in m.things && Next(w, Depart(o)) == m.(things := m.things[o := Out(m.things[o])])
  {
    AtDoes(OnItsWay(v, o), o, Removed);
    hide Linked, At, ResetView, Wf;
  }

  lemma HomeFirst(w: World, o: Id)
    requires Valid(w) && o in w.things && w.things[o].inWorld
    ensures var v := if o in w.cams then ResetView(w, o) else w;
            && v.things.Keys == w.things.Keys && v.cams.Keys == w.cams.Keys && v.things[o].inWorld
            && Linked(v) && (o in w.cams ==> v.cams[o].source == o)
            && (forall c :: c in w.cams && c != o ==> v.cams[c] == w.cams[c])
  {
    LinkedWf(w);
    SetViewKeepsIf(w, o, o);
    if o in w.cams {
      OwnersArePlayers(w, o);
      if w.cams[o].source != o { MovesThere(w, o, o); }
    }
    hide Linked, AllFollow;
  }

  /** Outside the world it can go for good, and its camera with it. */
  lemma VanishDoes(w: World, o: Id)
    requires Valid(w) && o in w.things
    ensures Next(w, Vanish(o)) == if w.things[o].inWorld then w
                                  else World(map p | p in w.things && p != o :: w.things[p],
                                             map c | c in w.cams && c != o :: w.cams[c])
  {
    ValidIs(w);
    hide Valid, Linked;
    LessOne(w.things, o);
    LessOne(w.cams, o);
  }

  lemma LessOne<T>(m: map<Id, T>, o: Id)
    ensures m - {o} == map p | p in m && p != o :: m[p]
  {
  }

  /** In the world already, it arrives nowhere; outside it neither crosses nor departs; unknown objects do nothing. */
  lemma NothingHappens(w: World, o: Id, place: nat, grid: Grid, blind: set<Id>)
    requires Valid(w)
    ensures o in w.things && w.things[o].inWorld ==> Next(w, Arrive(o, place, grid)) == w
    ensures o in w.things && !w.things[o].inWorld ==> Next(w, Cross(o, grid)) == w && Next(w, Depart(o)) == w
    ensures o !in w.things ==>
              Next(w, Arrive(o, place, grid)) == Next(w, Cross(o, grid)) == Next(w, Depart(o)) == Next(w, Vanish(o))
              == Next(w, Blink(o, blind)) == Next(w, Stir(o)) == w
  {
    hide Linked, AllFollow, AllPlaced;
  }
}
