/** The objects and cameras in place, and the loop that calls every camera of a list while the list changes under it. */
module CameraRealm {
  import opened Wrappers
  import opened Cameras
  import opened CameraEvents

  class Realm {
    var things: map<Id, Thing>
    var cams: map<Id, Camera>

    constructor ()
      ensures State() == World(map[], map[]) && Valid(State())
    {
      things, cams := map[], map[];
    }

    function State(): World
      reads this
    {
      World(things, cams)
    }

    method Detach(c: Id)
      requires Wf(State()) && c in cams
      modifies this`things
      ensures State() == old(State()).(things := old(things)[cams[c].source := Left(old(things)[cams[c].source], c)])
    {
      var from := cams[c].source;
      things := things[from := things[from].(cameras := Without(things[from].cameras, c))];
      if !things[from].IsActive() {
        things := things[from := things[from].(listed := false)];
      }
    }

    method Attach(c: Id, obj: Id)
      requires obj in things
      modifies this`things
      ensures State() == old(State()).(things := old(things)[obj := Joined(old(things)[obj], c)])
    {
      if !things[obj].IsActive() {
        things := things[obj := things[obj].(listed := true)];
      }
      things := things[obj := things[obj].(cameras := things[obj].cameras + [c])];
    }

    method ViewFrom(c: Id, obj: Id)
      requires Wf(State()) && c in cams && obj in things
      modifies this
      ensures State() == SetView(old(State()), c, obj)
    {
      if cams[c].source == obj {
        return;
      }
      if !InMap(things[c], things[obj]) {
        return;
      }
      if !things[obj].viewable {
        return;
      }
      hide Left, Joined, Same;
      assert Joined(things[obj], c).place == things[obj].place && Joined(things[obj], c).grid == things[obj].grid by {
        SameGrid(things[obj], Joined(things[obj], c));
        SamePlace(things[obj], Joined(things[obj], c));
      }
      Detach(c);
      cams := cams[c := cams[c].(source := obj)];
      Attach(c, obj);
      UpdateForCurrentViewPoint(c);
    }

    method UpdateForCurrentViewPoint(c: Id)
      requires c in cams && cams[c].source in things
      modifies this`cams
      ensures cams == old(cams)[c := Looking(old(cams)[c], old(cams)[c].source, things[old(cams)[c].source])]
    {
      var s := things[cams[c].source];
      cams := cams[c := cams[c].(grid := s.grid)];
      if s.place.Some? {
        cams := cams[c := cams[c].(refreshed := cams[c].refreshed + 1)];
      }
    }

    method Reset(c: Id)
      requires Wf(State()) && c in cams
      modifies this
      ensures State() == ResetView(old(State()), c)
    {
      ViewFrom(c, c);
    }

    method HandleOne(c: Id, h: Handler)
      requires Wf(State()) && c in cams
      modifies this
      ensures State() == Handle(old(State()), c, h)
    {
      hide SetView;
      var s := things[cams[c].source];
      match h
      case Added =>
        cams := cams[c := cams[c].(grid := s.grid)];
        RefreshOne(c);
      case Removed =>
        if cams[c].source == c {
          cams := cams[c := cams[c].(grid := None)];
        } else {
          Reset(c);
        }
      case Moved => cams := cams[c := cams[c].(grid := s.grid)];
      case VisibilityChanged(blind) =>
        if c in blind {
          Reset(c);
        }
      case Refresh => RefreshOne(c);
    }

    method RefreshOne(c: Id)
      requires Wf(State()) && c in cams
      modifies this`cams
      ensures State() == Refreshed(old(State()), c)
    {
      if things[cams[c].source].place.Some? {
        cams := cams[c := cams[c].(refreshed := cams[c].refreshed + 1)];
      }
    }

    /** The iterator moves on before the call: by then its element may have left the list, the next one has not. */
    method CameraCall(o: Id, h: Handler)
      requires Linked(State()) && o in things && Fits(h, things[o])
      modifies this
      ensures State() == At(old(State()), o, h)
    {
      ghost var w := State();
      ghost var cs, k := things[o].cameras, 0;
      OnList(w, o);
      LinkedWf(w);
      var itr := Begin(things[o].cameras);
      hide Linked, Wf, Fits, Begin, Once, Handle, HandleAll, Step;
      BeginAt(cs, 0);
      AllOf(w, cs, h);
      while itr.Some?
        invariant k <= |cs| && itr == Begin(cs[k..]) && forall c :: c in cs[..k] ==> c in w.cams
        invariant State() == HandleAll(w, cs[..k], h)
        decreases |cs| - k
      {
        BeginAt(cs, k);
        var c := itr.value;
        PartOf(w, o, h, k);
        itr := Step(things[o].cameras, c);
        HandleOne(c, h);
        HandleOn(w, cs, k, h);
        k := k + 1;
      }
      BeginAt(cs, k);
    }
  }

  lemma SamePlace(t: Thing, r: Thing)
    requires Same(t, r)
    ensures t.place == r.place
  {
  }

  lemma BeginAt(cs: seq<Id>, k: nat)
    requires k <= |cs|
    ensures Begin(cs[k..]) == if k < |cs| then Some(cs[k]) else None
  {
  }

  lemma AllOf(w: World, cs: seq<Id>, h: Handler)
    requires Wf(w) && forall c :: c in cs ==> c in w.cams
    ensures cs[..0] == [] && HandleAll(w, [], h) == w && cs[..|cs|] == cs
  {
  }

  lemma HandleOn(w: World, cs: seq<Id>, k: nat, h: Handler)
    requires Wf(w) && k < |cs| && forall c :: c in cs ==> c in w.cams
    ensures (forall c :: c in cs[..k] ==> c in w.cams) && (forall c :: c in cs[..k + 1] ==> c in w.cams)
    ensures HandleAll(w, cs[..k + 1], h) == Handle(HandleAll(w, cs[..k], h), cs[k], h)
  {
    hide Handle, Wf;
    assert cs[..k + 1][..k] == cs[..k] && cs[..k + 1][k] == cs[k];
  }

  /** Part of the way through the list, the next element is still on it, and what follows it is what followed at first. */
  lemma PartOf(w: World, o: Id, h: Handler, k: nat)
    requires Linked(w) && o in w.things && Fits(h, w.things[o]) && k < |w.things[o].cameras|
    requires forall c :: c in w.things[o].cameras ==> c in w.cams
    ensures var cs := w.things[o].cameras;
            && (forall c :: c in cs[..k] ==> c in w.cams)
            && var r := HandleAll(w, cs[..k], h);
            && Wf(r) && o in r.things && cs[k] in r.things[o].cameras && cs[k] in r.cams
            && Step(r.things[o].cameras, cs[k]) == Begin(cs[k + 1..])
  {
    var cs := w.things[o].cameras;
    assert cs[..k] + cs[k..] == cs && [cs[k]] + cs[k + 1..] == cs[k..];
    AllIs(w, cs[..k], cs[k..], h, o);
    var r := HandleAll(w, cs[..k], h);
    OnList(r, o);
    LinkedWf(r);
    hide Linked, HandleAll, Once, Fits, Wf, KeepsListed, SamePlaces, Reached;
    var head := Staying(cs[..k], h, o);
    assert r.things[o].cameras == head + cs[k..];
    Joins(head, cs, k);
    StepFrom(head, cs[k], cs[k + 1..]);
  }

  lemma Joins(head: seq<Id>, cs: seq<Id>, k: nat)
    requires k < |cs|
    ensures head + cs[k..] == head + [cs[k]] + cs[k + 1..]
  {
  }
}
