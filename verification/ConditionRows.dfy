/** Condition rows in plain numbers: what each kind of row asks for, what a row of rows means, and which rows are loaded. */
module ConditionRows {
  import opened Wrappers
  import opened Conditions
  import opened ConditionStore

  /**
   What the rows of kind 0, 1, 2, ... are checked for: a target that is a unit (u), a player (p), a game object (g) or any
   object (o), a source that is a unit (U), a creature (C) or any object (O), either of them (a), a place or either (m),
   both (b), or nothing.
   */
  function AskedOf(kind: nat): char
    requires kind < 63
  {
    if kind < 16 then "-uppapupppp--Upu"[kind] else if kind < 32 then "Opmpoopp---ooppO"[kind - 16]
    else if kind < 48 then "Ummmmbbouuuubpum"[kind - 32] else "ggmpO-ogoCCmupp"[kind - 48]
  }

  predicate Is(o: Option<Object>, kinds: set<ObjectKind>)
  {
    o.Some? && o.value.kind in kinds
  }

  predicate Given(c: char, target: Option<Object>, place: bool, source: Option<Object>)
  {
    match c
    case 'u' => Is(target, {Creature, Player})
    case 'p' => Is(target, {Player})
    case 'g' => Is(target, {GameObject})
    case 'o' => target.Some?
    case 'U' => Is(source, {Creature, Player})
    case 'C' => Is(source, {Creature})
    case 'O' => source.Some?
    case 'a' => source.Some? || target.Some?
    case 'm' => place || source.Some? || target.Some?
    case 'b' => source.Some? && target.Some?
    case _ => true
  }

  /** Every kind's check, by the table. */
  lemma KindsAsk(r: Row, a: Args)
    requires 0 <= r.test.kind < 63
    ensures LeafFits(r, a) <==> if r.swap then Given(AskedOf(r.test.kind), a.source, a.place, a.target)
                                else Given(AskedOf(r.test.kind), a.target, a.place, a.source)
  {
    var b := if r.swap then Swapped(a) else a;
    KindAsks(r.test.kind, b);
    hide RequirementOf, Fits, Given;
  }

  lemma KindAsks(kind: int, a: Args)
    requires 0 <= kind < 63
    ensures Fits(RequirementOf(kind), a) <==> Given(AskedOf(kind), a.target, a.place, a.source)
  {
    if kind < 16 { KindBelow16(kind, a); }
    else if kind < 32 { KindBelow32(kind, a); }
    else if kind < 48 { KindBelow48(kind, a); }
    else { KindBelow63(kind, a); }
    hide RequirementOf, Fits, Given;
  }

  lemma KindBelow16(kind: int, a: Args)
    requires 0 <= kind < 16
    ensures Fits(RequirementOf(kind), a) <==> Given(AskedOf(kind), a.target, a.place, a.source)
  {
  }

  lemma KindBelow32(kind: int, a: Args)
    requires 16 <= kind < 32
    ensures Fits(RequirementOf(kind), a) <==> Given(AskedOf(kind), a.target, a.place, a.source)
  {
  }

  lemma KindBelow48(kind: int, a: Args)
    requires 32 <= kind < 48
    ensures Fits(RequirementOf(kind), a) <==> Given(AskedOf(kind), a.target, a.place, a.source)
  {
  }

  lemma KindBelow63(kind: int, a: Args)
    requires 48 <= kind < 63
    ensures Fits(RequirementOf(kind), a) <==> Given(AskedOf(kind), a.target, a.place, a.source)
  {
  }

  // ----- What a row means -----

  /** The number a value is looked up under. */
  function Entry(v: int): Id
  {
    v % 4294967296
  }

  predicate MetIfAny(s: Store, w: World, v: int, a: Args, otherwise: bool)
    requires Sound(s) && (v != 0 ==> Entry(v) in s)
  {
    if v != 0 then Meets(s, w, Entry(v), a) else otherwise
  }

  /**
   Row by row: -3 is met when its third or fourth is, or its first is not; -2 when any of its four is; -1 when all of them
   are, those that are 0 left out. A flag swaps the arguments for all of it, another reverses what comes of it.
   */
  lemma RowMeans(s: Store, w: World, id: Id, a: Args)
    requires Sound(s) && id in s
    ensures var r := s[id];
            var t, b := r.test, if r.swap then Args(a.source, a.place, a.target) else a;
            && (t.kind in {-3, -2, -1} ==>
                  && Entry(t.value1) in s && (t.kind != -3 ==> Entry(t.value2) in s)
                  && (t.value3 != 0 ==> Entry(t.value3) in s) && (t.value4 != 0 ==> Entry(t.value4) in s))
            && (t.kind == -3 ==>
                  (Meets(s, w, id, a) <==>
                     r.reverse !=
                     (MetIfAny(s, w, t.value3, b, false) || MetIfAny(s, w, t.value4, b, false)
                      || !Meets(s, w, Entry(t.value1), b))))
            && (t.kind == -2 ==>
                  (Meets(s, w, id, a) <==>
                     r.reverse !=
                     (MetIfAny(s, w, t.value3, b, false) || MetIfAny(s, w, t.value4, b, false)
                      || Meets(s, w, Entry(t.value1), b) || Meets(s, w, Entry(t.value2), b))))
            && (t.kind == -1 ==>
                  (Meets(s, w, id, a) <==>
                     r.reverse !=
                     (MetIfAny(s, w, t.value3, b, true) && MetIfAny(s, w, t.value4, b, true)
                      && Meets(s, w, Entry(t.value1), b) && Meets(s, w, Entry(t.value2), b))))
            && (t.kind !in {-3, -2, -1} ==>
                  (Meets(s, w, id, a) <==> LeafFits(r, a) && r.reverse != (t.kind == 0 || w(t, b))))
  {
    assert RefersDown(s, id, s[id].test);
    MeetsOnce(s, w, id, a);
    EvaluateOnce(s, w, id, if s[id].swap then Swapped(a) else a);
    hide Meets, Evaluate, Sound;
  }

  lemma MeetsOnce(s: Store, w: World, id: Id, a: Args)
    requires Sound(s) && id in s
    ensures var r := s[id];
            var b := if r.swap then Swapped(a) else a;
            Meets(s, w, id, a) <==> Fits(RequirementOf(r.test.kind), b) && (Evaluate(s, w, id, b) != r.reverse)
    ensures s[id].test.kind in {-3, -2, -1} ==> RequirementOf(s[id].test.kind) == ReqNone
  {
    hide Evaluate;
  }

  lemma EvaluateOnce(s: Store, w: World, id: Id, a: Args)
    requires Sound(s) && id in s && RefersDown(s, id, s[id].test)
    ensures var t := s[id].test;
            && (t.kind == -3 ==>
                  (Evaluate(s, w, id, a) <==>
                     (MetIfAny(s, w, t.value3, a, false) || MetIfAny(s, w, t.value4, a, false)
                      || !Meets(s, w, Entry(t.value1), a))))
            && (t.kind == -2 ==>
                  (Evaluate(s, w, id, a) <==>
                     (MetIfAny(s, w, t.value3, a, false) || MetIfAny(s, w, t.value4, a, false)
                      || Meets(s, w, Entry(t.value1), a) || Meets(s, w, Entry(t.value2), a))))
            && (t.kind == -1 ==>
                  (Evaluate(s, w, id, a) <==>
                     (MetIfAny(s, w, t.value3, a, true) && MetIfAny(s, w, t.value4, a, true)
                      && Meets(s, w, Entry(t.value1), a) && Meets(s, w, Entry(t.value2), a))))
            && (t.kind !in {-3, -2, -1} ==> (Evaluate(s, w, id, a) <==> t.kind == 0 || w(t, a)))
  {
    hide Meets;
  }

  // ----- Which rows are loaded -----

  predicate LowerIn(s: Store, id: Id, v: int)
  {
    Entry(v) < id && Entry(v) in s
  }

  /**
   A row is loaded, as it is, if it is a combining one whose values are loaded lower rows, -3 being checked for its first
   only; or another whose own values pass. Values that name what this version does not have make it the empty row, reversed.
   */
  lemma LoadKeeps(s: Store, check: LeafRules, n: nat, id: Id)
    requires id < n && id in s
    ensures var t, r := Loaded(s, check, n), s[id];
            var v := r.test;
            if v.kind == -3 then (id in t <==> LowerIn(t, id, v.value1)) && (id in t ==> t[id] == r)
            else if v.kind == -2 || v.kind == -1 then
              && (id in t <==> && LowerIn(t, id, v.value1) && LowerIn(t, id, v.value2)
                               && (v.value3 != 0 ==> LowerIn(t, id, v.value3)) && (v.value4 != 0 ==> LowerIn(t, id, v.value4)))
              && (id in t ==> t[id] == r)
            else
              && (id in t <==> check(v) != Bad)
              && (check(v) == Good ==> t[id] == r)
              && (check(v) == Gone ==> t[id] == Row(v.(kind := 0), !r.reverse, r.swap))
  {
    LoadIsFinal(s, check, n, id);
    hide Loaded;
  }
}
