/** Conditions: rows that test something about a target and a source, and rows that combine other rows. */
module Conditions {
  import opened Wrappers

  type Id = nat

  const NOT := -3
  const OR := -2
  const AND := -1
  const NONE := 0

  /** What a row tests; the values are signed 32-bit. */
  datatype Test = Test(kind: int, value1: int, value2: int, value3: int, value4: int) {
    predicate Combines()
    {
      NOT <= kind <= AND
    }
  }

  datatype Row = Row(test: Test, reverse: bool, swap: bool)

  type Store = map<Id, Row>

  datatype ObjectKind = GameObject | Creature | Player | OtherObject

  datatype Object = Object(guid: nat, kind: ObjectKind) {
    predicate IsUnit()
    {
      kind.Creature? || kind.Player?
    }
  }

  datatype Args = Args(target: Option<Object>, place: bool, source: Option<Object>)

  function Swapped(a: Args): Args
  {
    Args(a.source, a.place, a.target)
  }

  // ----- What a row asks of its arguments -----

  datatype Requirement =
    | ReqNone
    | ReqTargetObject | ReqTargetGameObject | ReqTargetUnit | ReqTargetCreature | ReqTargetPlayer
    | ReqSourceObject | ReqSourceGameObject | ReqSourceUnit | ReqSourceCreature | ReqSourcePlayer
    | ReqAnyObject | ReqMapOrObject
    | ReqBothObjects | ReqBothGameObjects | ReqBothUnits | ReqBothPlayers

  function RequirementOf(kind: int): Requirement
  {
    if kind in {4} then ReqAnyObject
    else if kind in {1, 6, 15, 40, 41, 42, 43, 46, 60} then ReqTargetUnit
    else if kind in {2, 3, 5, 7, 8, 9, 10, 14, 17, 19, 22, 23, 29, 30, 45, 51, 61, 62} then ReqTargetPlayer
    else if kind in {20, 21, 27, 28, 39, 54, 56} then ReqTargetObject
    else if kind in {48, 49, 55} then ReqTargetGameObject
    else if kind in {13, 32} then ReqSourceUnit
    else if kind in {16, 31, 52} then ReqSourceObject
    else if kind in {57, 58} then ReqSourceCreature
    else if kind in {18, 33, 34, 35, 36, 47, 50, 59} then ReqMapOrObject
    else if kind in {37, 38, 44} then ReqBothObjects
    else ReqNone
  }

  predicate Fits(r: Requirement, a: Args)
  {
    match r
    case ReqNone => true
    case ReqTargetObject => a.target.Some?
    case ReqTargetGameObject => a.target.Some? && a.target.value.kind.GameObject?
    case ReqTargetUnit => a.target.Some? && a.target.value.IsUnit()
    case ReqTargetCreature => a.target.Some? && a.target.value.kind.Creature?
    case ReqTargetPlayer => a.target.Some? && a.target.value.kind.Player?
    case ReqSourceObject => a.source.Some?
    case ReqSourceGameObject => a.source.Some? && a.source.value.kind.GameObject?
    case ReqSourceUnit => a.source.Some? && a.source.value.IsUnit()
    case ReqSourceCreature => a.source.Some? && a.source.value.kind.Creature?
    case ReqSourcePlayer => a.source.Some? && a.source.value.kind.Player?
    case ReqAnyObject => a.source.Some? || a.target.Some?
    case ReqMapOrObject => a.place || a.source.Some? || a.target.Some?
    case ReqBothObjects => a.source.Some? && a.target.Some?
    case ReqBothGameObjects =>
      a.source.Some? && a.source.value.kind.GameObject? && a.target.Some? && a.target.value.kind.GameObject?
    case ReqBothUnits => a.source.Some? && a.source.value.IsUnit() && a.target.Some? && a.target.value.IsUnit()
    case ReqBothPlayers =>
      a.source.Some? && a.source.value.kind.Player? && a.target.Some? && a.target.value.kind.Player?
  }

  // ----- Rows that refer to rows -----

  /** A value as the id it is looked up under: compared with an unsigned entry it is unsigned itself. */
  function AsId(v: int): Id
  {
    v % 0x1_0000_0000
  }

  predicate Lower(s: Store, id: Id, v: int)
  {
    AsId(v) < id && AsId(v) in s
  }

  predicate LowerIfAny(s: Store, id: Id, v: int)
  {
    v != 0 ==> Lower(s, id, v)
  }

  /** What evaluating a row looks up is there, and lower than the row. */
  predicate RefersDown(s: Store, id: Id, r: Test)
  {
    r.Combines() ==>
      && Lower(s, id, r.value1)
      && (r.kind != NOT ==> Lower(s, id, r.value2))
      && LowerIfAny(s, id, r.value3)
      && LowerIfAny(s, id, r.value4)
  }

  predicate Sound(s: Store)
  {
    forall id :: id in s ==> RefersDown(s, id, s[id].test)
  }

  /** What a row without children says of its arguments; the world it asks is a parameter. */
  type World = (Test, Args) -> bool

  /** The empty condition is always met. */
  predicate Asked(w: World, t: Test, a: Args)
  {
    t.kind == NONE || w(t, a)
  }

  predicate LeafMeets(w: World, r: Row, a: Args)
  {
    var b := if r.swap then Swapped(a) else a;
    Fits(RequirementOf(r.test.kind), b) && (Asked(w, r.test, b) != r.reverse)
  }

  predicate Meets(s: Store, w: World, id: Id, a: Args)
    requires Sound(s) && id in s
    decreases id, 1
  {
    var r := s[id];
    assert RefersDown(s, id, r.test);
    var b := if r.swap then Swapped(a) else a;
    Fits(RequirementOf(r.test.kind), b) && (Evaluate(s, w, id, b) != r.reverse)
  }

  predicate Evaluate(s: Store, w: World, id: Id, a: Args)
    requires Sound(s) && id in s
    decreases id, 0
  {
    var r := s[id].test;
    assert RefersDown(s, id, r);
    if r.kind == NOT then
      if r.value3 != 0 && Meets(s, w, AsId(r.value3), a) then true
      else if r.value4 != 0 && Meets(s, w, AsId(r.value4), a) then true
      else !Meets(s, w, AsId(r.value1), a)
    else if r.kind == OR then
      if r.value3 != 0 && Meets(s, w, AsId(r.value3), a) then true
      else if r.value4 != 0 && Meets(s, w, AsId(r.value4), a) then true
      else Meets(s, w, AsId(r.value1), a) || Meets(s, w, AsId(r.value2), a)
    else if r.kind == AND then
      var extra := (r.value3 != 0 ==> Meets(s, w, AsId(r.value3), a)) && (r.value4 != 0 ==> Meets(s, w, AsId(r.value4), a));
      extra && Meets(s, w, AsId(r.value1), a) && Meets(s, w, AsId(r.value2), a)
    else Asked(w, r, a)
  }

  // ----- The formula a row stands for -----

  datatype Formula =
    | Leaf(row: Row)
    | Not(f: Formula)
    | Or(f: Formula, g: Formula)
    | And(f: Formula, g: Formula)
    | Swap(f: Formula)

  predicate Holds(f: Formula, w: World, a: Args)
  {
    match f
    case Leaf(row) => LeafMeets(w, row, a)
    case Not(g) => !Holds(g, w, a)
    case Or(g, h) => Holds(g, w, a) || Holds(h, w, a)
    case And(g, h) => Holds(g, w, a) && Holds(h, w, a)
    case Swap(g) => Holds(g, w, Swapped(a))
  }

  function OrIfAny(s: Store, id: Id, v: int, f: Formula): Formula
    requires Sound(s) && LowerIfAny(s, id, v)
    decreases id, 0
  {
    if v != 0 then Or(FormulaOf(s, AsId(v)), f) else f
  }

  function AndIfAny(s: Store, id: Id, v: int, f: Formula): Formula
    requires Sound(s) && LowerIfAny(s, id, v)
    decreases id, 0
  {
    if v != 0 then And(FormulaOf(s, AsId(v)), f) else f
  }

  function FormulaOf(s: Store, id: Id): Formula
    requires Sound(s) && id in s
    decreases id, 2
  {
    var r := s[id];
    assert RefersDown(s, id, r.test);
    if !r.test.Combines() then Leaf(r)
    else
      var f := Combined(s, id);
      var g := if r.reverse then Not(f) else f;
      if r.swap then Swap(g) else g
  }

  function Combined(s: Store, id: Id): Formula
    requires Sound(s) && id in s && s[id].test.Combines()
    decreases id, 1
  {
    var r := s[id].test;
    assert RefersDown(s, id, r);
    var f := FormulaOf(s, AsId(r.value1));
    if r.kind == NOT then OrIfAny(s, id, r.value3, OrIfAny(s, id, r.value4, Not(f)))
    else
      var g := FormulaOf(s, AsId(r.value2));
      if r.kind == OR then OrIfAny(s, id, r.value3, OrIfAny(s, id, r.value4, Or(f, g)))
      else AndIfAny(s, id, r.value3, AndIfAny(s, id, r.value4, And(f, g)))
  }

  lemma ExtrasHold(s: Store, w: World, id: Id, f: Formula, a: Args)
    requires Sound(s) && id in s && s[id].test.Combines()
    ensures RefersDown(s, id, s[id].test)
    ensures var v, u := s[id].test.value3, s[id].test.value4;
            && Holds(OrIfAny(s, id, v, OrIfAny(s, id, u, f)), w, a)
               == ((v != 0 && Holds(FormulaOf(s, AsId(v)), w, a)) || (u != 0 && Holds(FormulaOf(s, AsId(u)), w, a))
                   || Holds(f, w, a))
            && Holds(AndIfAny(s, id, v, AndIfAny(s, id, u, f)), w, a)
               == ((v != 0 ==> Holds(FormulaOf(s, AsId(v)), w, a)) && (u != 0 ==> Holds(FormulaOf(s, AsId(u)), w, a))
                   && Holds(f, w, a))
  {
    assert RefersDown(s, id, s[id].test);
  }

  lemma FlagsHold(s: Store, w: World, id: Id, a: Args)
    requires Sound(s) && id in s && s[id].test.Combines()
    ensures Holds(FormulaOf(s, id), w, a)
            == (Holds(Combined(s, id), w, if s[id].swap then Swapped(a) else a) != s[id].reverse)
  {
    hide Combined;
  }

  lemma {:induction false} EvaluateIsCombined(s: Store, w: World, id: Id, a: Args)
    requires Sound(s) && id in s && s[id].test.Combines()
    ensures Evaluate(s, w, id, a) == Holds(Combined(s, id), w, a)
    decreases id, 0
  {
    var r := s[id].test;
    assert RefersDown(s, id, r);
    var f := FormulaOf(s, AsId(r.value1));
    MeetsIsFormula(s, w, AsId(r.value1), a);
    if r.value3 != 0 {
      MeetsIsFormula(s, w, AsId(r.value3), a);
    }
    if r.value4 != 0 {
      MeetsIsFormula(s, w, AsId(r.value4), a);
    }
    if r.kind == NOT {
      ExtrasHold(s, w, id, Not(f), a);
    } else {
      var g := FormulaOf(s, AsId(r.value2));
      MeetsIsFormula(s, w, AsId(r.value2), a);
      ExtrasHold(s, w, id, Or(f, g), a);
      ExtrasHold(s, w, id, And(f, g), a);
    }
    hide FormulaOf, OrIfAny, AndIfAny, Meets;
  }

  /** Evaluating a row by looking rows up is what its formula says, for every store that refers down. */
  lemma {:induction false} MeetsIsFormula(s: Store, w: World, id: Id, a: Args)
    requires Sound(s) && id in s
    ensures Meets(s, w, id, a) == Holds(FormulaOf(s, id), w, a)
    decreases id, 1
  {
    var row := s[id];
    if row.test.Combines() {
      EvaluateIsCombined(s, w, id, if row.swap then Swapped(a) else a);
      FlagsHold(s, w, id, a);
      hide FormulaOf, Combined, Evaluate;
    }
  }

  // ----- Pushing the flags down -----

  /** Swaps move to the leaves. */
  function PushSwaps(f: Formula, swap: bool): Formula
  {
    match f
    case Leaf(row) => Leaf(row.(swap := row.swap != swap))
    case Not(g) => Not(PushSwaps(g, swap))
    case Or(g, h) => Or(PushSwaps(g, swap), PushSwaps(h, swap))
    case And(g, h) => And(PushSwaps(g, swap), PushSwaps(h, swap))
    case Swap(g) => PushSwaps(g, !swap)
  }

  predicate SwapsAtLeaves(f: Formula)
  {
    match f
    case Leaf(_) => true
    case Not(g) => SwapsAtLeaves(g)
    case Or(g, h) => SwapsAtLeaves(g) && SwapsAtLeaves(h)
    case And(g, h) => SwapsAtLeaves(g) && SwapsAtLeaves(h)
    case Swap(_) => false
  }

  /** Always: a swap of the whole is a swap at every leaf. */
  lemma {:induction false} SwapsPushDown(f: Formula, w: World, swap: bool, a: Args)
    ensures SwapsAtLeaves(PushSwaps(f, swap))
    ensures Holds(PushSwaps(f, swap), w, a) == Holds(f, w, if swap then Swapped(a) else a)
  {
    match f
    case Leaf(row) =>
    case Not(g) => SwapsPushDown(g, w, swap, a);
    case Or(g, h) =>
      SwapsPushDown(g, w, swap, a);
      SwapsPushDown(h, w, swap, a);
    case And(g, h) =>
      SwapsPushDown(g, w, swap, a);
      SwapsPushDown(h, w, swap, a);
    case Swap(g) => SwapsPushDown(g, w, !swap, a);
  }

  /** Negations move to the leaves, And and Or taking each other's place below one. */
  function PushNots(f: Formula, negate: bool): Formula
  {
    match f
    case Leaf(row) => Leaf(row.(reverse := row.reverse != negate))
    case Not(g) => PushNots(g, !negate)
    case Or(g, h) =>
      if negate then And(PushNots(g, true), PushNots(h, true)) else Or(PushNots(g, false), PushNots(h, false))
    case And(g, h) =>
      if negate then Or(PushNots(g, true), PushNots(h, true)) else And(PushNots(g, false), PushNots(h, false))
    case Swap(g) => Swap(PushNots(g, negate))
  }

  predicate NotsAtLeaves(f: Formula)
  {
    match f
    case Leaf(_) => true
    case Not(_) => false
    case Or(g, h) => NotsAtLeaves(g) && NotsAtLeaves(h)
    case And(g, h) => NotsAtLeaves(g) && NotsAtLeaves(h)
    case Swap(g) => NotsAtLeaves(g)
  }

  predicate LeafFits(r: Row, a: Args)
  {
    Fits(RequirementOf(r.test.kind), if r.swap then Swapped(a) else a)
  }

  /** The leaves' parameter checks, left to right. */
  function Checks(f: Formula, a: Args): seq<bool>
  {
    match f
    case Leaf(row) => [LeafFits(row, a)]
    case Not(g) => Checks(g, a)
    case Or(g, h) => Checks(g, a) + Checks(h, a)
    case And(g, h) => Checks(g, a) + Checks(h, a)
    case Swap(g) => Checks(g, Swapped(a))
  }

  /** With every leaf's parameters satisfied, by De Morgan. */
  lemma {:induction false} NotsPushDown(f: Formula, w: World, negate: bool, a: Args)
    requires false !in Checks(f, a)
    ensures NotsAtLeaves(PushNots(f, negate))
    ensures Holds(PushNots(f, negate), w, a) == (Holds(f, w, a) != negate)
  {
    match f
    case Leaf(row) => assert Checks(f, a)[0];
    case Not(g) => NotsPushDown(g, w, !negate, a);
    case Or(g, h) =>
      NotsPushDown(g, w, negate, a);
      NotsPushDown(h, w, negate, a);
    case And(g, h) =>
      NotsPushDown(g, w, negate, a);
      NotsPushDown(h, w, negate, a);
    case Swap(g) => NotsPushDown(g, w, negate, Swapped(a));
  }

  /** At a leaf it takes exactly that: a leaf with the wrong parameters is not met, reversed or not. */
  lemma ReversingALeaf(r: Row, w: World, a: Args)
    ensures Holds(PushNots(Leaf(r), true), w, a) == !Holds(Leaf(r), w, a) <==> LeafFits(r, a)
  {
  }

  /** A row's meaning with every flag at the leaves. */
  lemma FlagsPushDown(s: Store, w: World, id: Id, a: Args)
    requires Sound(s) && id in s && false !in Checks(FormulaOf(s, id), a)
    ensures var f := PushNots(PushSwaps(FormulaOf(s, id), false), false);
            && SwapsAtLeaves(f) && NotsAtLeaves(f)
            && Meets(s, w, id, a) == Holds(f, w, a)
  {
    var f := FormulaOf(s, id);
    MeetsIsFormula(s, w, id, a);
    SwapsPushDown(f, w, false, a);
    ChecksPushDown(f, false, a);
    NotsPushDown(PushSwaps(f, false), w, false, a);
    StillNoSwaps(PushSwaps(f, false), false);
  }

  lemma {:induction false} ChecksPushDown(f: Formula, swap: bool, a: Args)
    ensures Checks(PushSwaps(f, swap), a) == Checks(f, if swap then Swapped(a) else a)
  {
    match f
    case Leaf(row) =>
    case Not(g) => ChecksPushDown(g, swap, a);
    case Or(g, h) =>
      ChecksPushDown(g, swap, a);
      ChecksPushDown(h, swap, a);
    case And(g, h) =>
      ChecksPushDown(g, swap, a);
      ChecksPushDown(h, swap, a);
    case Swap(g) => ChecksPushDown(g, !swap, a);
  }

  lemma {:induction false} StillNoSwaps(f: Formula, negate: bool)
    requires SwapsAtLeaves(f)
    ensures SwapsAtLeaves(PushNots(f, negate))
  {
    match f
    case Leaf(row) =>
    case Not(g) => StillNoSwaps(g, !negate);
    case Or(g, h) =>
      StillNoSwaps(g, negate);
      StillNoSwaps(h, negate);
    case And(g, h) =>
      StillNoSwaps(g, negate);
      StillNoSwaps(h, negate);
  }

  // ----- Without a player -----

  predicate NeedsNoTarget(r: Requirement)
  {
    r in {ReqNone, ReqSourceObject, ReqSourceGameObject, ReqSourceUnit, ReqSourceCreature, ReqAnyObject, ReqMapOrObject}
  }

  predicate CanBeUsedWithoutPlayer(s: Store, id: Id)
    requires Sound(s)
    decreases id
  {
    if id !in s then false
    else
      var r := s[id].test;
      assert RefersDown(s, id, r);
      if r.kind == NOT then CanBeUsedWithoutPlayer(s, AsId(r.value1))
      else if r.Combines() then
        CanBeUsedWithoutPlayer(s, AsId(r.value1)) && CanBeUsedWithoutPlayer(s, AsId(r.value2))
      else NeedsNoTarget(RequirementOf(r.kind))
  }

  // ----- What it takes to do without a target -----

  predicate NeedsNoSource(r: Requirement)
  {
    r in {ReqNone, ReqTargetObject, ReqTargetGameObject, ReqTargetUnit, ReqTargetCreature, ReqTargetPlayer, ReqAnyObject,
          ReqMapOrObject}
  }

  /** No leaf looks at the target, with the swaps above it counted in. */
  predicate TargetFree(f: Formula, swapped: bool)
  {
    match f
    case Leaf(row) =>
      if row.swap != swapped then NeedsNoSource(RequirementOf(row.test.kind)) else NeedsNoTarget(RequirementOf(row.test.kind))
    case Not(g) => TargetFree(g, swapped)
    case Or(g, h) => TargetFree(g, swapped) && TargetFree(h, swapped)
    case And(g, h) => TargetFree(g, swapped) && TargetFree(h, swapped)
    case Swap(g) => TargetFree(g, !swapped)
  }

  function Dropped(a: Args): Args
  {
    a.(target := None)
  }

  /** The target left out of arguments that have been swapped or not. */
  function Without(a: Args, swapped: bool): Args
  {
    if swapped then Swapped(Dropped(Swapped(a))) else Dropped(a)
  }

  predicate HasOther(a: Args, swapped: bool)
  {
    if swapped then a.target.Some? else a.source.Some?
  }

  lemma {:induction false} FreeChecks(f: Formula, swapped: bool, a: Args)
    requires TargetFree(f, swapped) && HasOther(a, swapped)
    ensures Checks(f, Without(a, swapped)) == Checks(f, a)
  {
    match f
    case Leaf(row) =>
    case Not(g) => FreeChecks(g, swapped, a);
    case Or(g, h) =>
      FreeChecks(g, swapped, a);
      FreeChecks(h, swapped, a);
    case And(g, h) =>
      FreeChecks(g, swapped, a);
      FreeChecks(h, swapped, a);
    case Swap(g) =>
      assert Swapped(Without(a, swapped)) == Without(Swapped(a), !swapped);
      FreeChecks(g, !swapped, Swapped(a));
  }

  /** A target, and a source like it, that some check is missing one of. */
  lemma {:induction false} NotFreeChecks(f: Formula, swapped: bool) returns (a: Args)
    requires !TargetFree(f, swapped)
    ensures HasOther(a, swapped) && Checks(f, Without(a, swapped)) != Checks(f, a)
    decreases f, 1
  {
    match f
    case Leaf(row) =>
      a := LeafMisses(row, swapped);
    case Not(g) => a := NotFreeChecks(g, swapped);
    case Or(g, h) => a := OneNotFree(f, g, h, swapped);
    case And(g, h) => a := OneNotFree(f, g, h, swapped);
    case Swap(g) =>
      var b := NotFreeChecks(g, !swapped);
      a := Swapped(b);
      assert Swapped(a) == b && Swapped(Without(a, swapped)) == Without(b, !swapped);
  }

  lemma LeafMisses(row: Row, swapped: bool) returns (a: Args)
    requires !TargetFree(Leaf(row), swapped)
    ensures HasOther(a, swapped) && Checks(Leaf(row), Without(a, swapped)) != Checks(Leaf(row), a)
  {
    var q := RequirementOf(row.test.kind);
    var o := Object(0, if q.ReqTargetGameObject? || q.ReqSourceGameObject? || q.ReqBothGameObjects? then GameObject
                       else if q.ReqTargetCreature? || q.ReqSourceCreature? then Creature else Player);
    a := Args(Some(o), false, Some(o));
    assert Checks(Leaf(row), Without(a, swapped))[0] != Checks(Leaf(row), a)[0];
  }

  lemma {:induction false} OneNotFree(f: Formula, g: Formula, h: Formula, swapped: bool) returns (a: Args)
    requires (f == Or(g, h) || f == And(g, h)) && !TargetFree(f, swapped)
    ensures HasOther(a, swapped) && Checks(f, Without(a, swapped)) != Checks(f, a)
    decreases f, 0
  {
    if !TargetFree(g, swapped) {
      a := NotFreeChecks(g, swapped);
    } else {
      a := NotFreeChecks(h, swapped);
    }
    SameLength(g, a, Without(a, swapped));
    Unequal(Checks(g, a), Checks(h, a), Checks(g, Without(a, swapped)), Checks(h, Without(a, swapped)));
  }

  lemma {:induction false} SameLength(f: Formula, a: Args, b: Args)
    ensures |Checks(f, a)| == |Checks(f, b)|
  {
    match f
    case Leaf(row) =>
    case Not(g) => SameLength(g, a, b);
    case Or(g, h) =>
      SameLength(g, a, b);
      SameLength(h, a, b);
    case And(g, h) =>
      SameLength(g, a, b);
      SameLength(h, a, b);
    case Swap(g) => SameLength(g, Swapped(a), Swapped(b));
  }

  lemma Unequal(p: seq<bool>, q: seq<bool>, r: seq<bool>, t: seq<bool>)
    requires |p| == |r| && (p != r || q != t)
    ensures p + q != r + t
  {
    assert p == (p + q)[..|p|] && q == (p + q)[|p|..];
    assert r == (r + t)[..|r|] && t == (r + t)[|r|..];
  }

  /** Exactly then: with a source at hand, leaving out a target changes no check. */
  lemma TargetFreeIff(f: Formula)
    ensures TargetFree(f, false) <==> forall a: Args :: a.source.Some? ==> Checks(f, Dropped(a)) == Checks(f, a)
  {
    if TargetFree(f, false) {
      forall a: Args | a.source.Some?
        ensures Checks(f, Dropped(a)) == Checks(f, a)
      {
        FreeChecks(f, false, a);
      }
    } else {
      var a := NotFreeChecks(f, false);
      assert a.source.Some? && Dropped(a) == Without(a, false);
    }
  }

  // ----- Whether the answer given is that -----

  /** Neither the row nor those it refers to by its first two values have a swap flag. */
  predicate Unswapped(s: Store, id: Id)
    requires Sound(s) && id in s
    decreases id
  {
    var r := s[id].test;
    assert RefersDown(s, id, r);
    && !s[id].swap
    && (r.Combines() ==> Unswapped(s, AsId(r.value1)) && (r.kind != NOT ==> Unswapped(s, AsId(r.value2))))
  }

  /** The third and fourth conditions of these rows can do without a target. */
  predicate ExtrasFree(s: Store, id: Id)
    requires Sound(s) && id in s
    decreases id
  {
    var r := s[id].test;
    assert RefersDown(s, id, r);
    r.Combines() ==>
      && (r.value3 != 0 ==> TargetFree(FormulaOf(s, AsId(r.value3)), false))
      && (r.value4 != 0 ==> TargetFree(FormulaOf(s, AsId(r.value4)), false))
      && ExtrasFree(s, AsId(r.value1)) && (r.kind != NOT ==> ExtrasFree(s, AsId(r.value2)))
  }

  lemma CombinedFree(s: Store, id: Id, swapped: bool)
    requires Sound(s) && id in s && s[id].test.Combines() && !s[id].swap
    ensures RefersDown(s, id, s[id].test)
    ensures var r := s[id].test;
            TargetFree(FormulaOf(s, id), swapped) <==>
            && TargetFree(FormulaOf(s, AsId(r.value1)), swapped)
            && (r.kind != NOT ==> TargetFree(FormulaOf(s, AsId(r.value2)), swapped))
            && (r.value3 != 0 ==> TargetFree(FormulaOf(s, AsId(r.value3)), swapped))
            && (r.value4 != 0 ==> TargetFree(FormulaOf(s, AsId(r.value4)), swapped))
  {
    var row, r := s[id], s[id].test;
    assert RefersDown(s, id, r);
    var f := FormulaOf(s, AsId(r.value1));
    if r.kind == NOT {
      ExtrasAreFree(s, id, Not(f), swapped);
    } else {
      var g := FormulaOf(s, AsId(r.value2));
      ExtrasAreFree(s, id, Or(f, g), swapped);
      ExtrasAreFree(s, id, And(f, g), swapped);
    }
    FlagsAreFree(s, id, swapped);
    hide FormulaOf, OrIfAny, AndIfAny;
  }

  lemma FlagsAreFree(s: Store, id: Id, swapped: bool)
    requires Sound(s) && id in s && s[id].test.Combines() && !s[id].swap
    ensures TargetFree(FormulaOf(s, id), swapped) <==> TargetFree(Combined(s, id), swapped)
  {
    hide Combined;
  }

  lemma ExtrasAreFree(s: Store, id: Id, f: Formula, swapped: bool)
    requires Sound(s) && id in s && s[id].test.Combines()
    ensures RefersDown(s, id, s[id].test)
    ensures var v, u := s[id].test.value3, s[id].test.value4;
            var free := && (v != 0 ==> TargetFree(FormulaOf(s, AsId(v)), swapped))
                        && (u != 0 ==> TargetFree(FormulaOf(s, AsId(u)), swapped)) && TargetFree(f, swapped);
            && TargetFree(OrIfAny(s, id, v, OrIfAny(s, id, u, f)), swapped) == free
            && TargetFree(AndIfAny(s, id, v, AndIfAny(s, id, u, f)), swapped) == free
  {
    assert RefersDown(s, id, s[id].test);
    hide FormulaOf;
  }

  /** What the answer looks at: no flags, and no third or fourth condition. */
  function Seen(s: Store, id: Id): Formula
    requires Sound(s) && id in s
    decreases id
  {
    var r := s[id];
    assert RefersDown(s, id, r.test);
    if !r.test.Combines() then Leaf(r.(swap := false))
    else if r.test.kind == NOT then Not(Seen(s, AsId(r.test.value1)))
    else if r.test.kind == OR then Or(Seen(s, AsId(r.test.value1)), Seen(s, AsId(r.test.value2)))
    else And(Seen(s, AsId(r.test.value1)), Seen(s, AsId(r.test.value2)))
  }

  /** Whatever the store, it is the right answer for that. */
  lemma {:induction false} AnswerIsForSeen(s: Store, id: Id)
    requires Sound(s)
    ensures CanBeUsedWithoutPlayer(s, id) <==> id in s && TargetFree(Seen(s, id), false)
    decreases id
  {
    if id in s {
      var r := s[id].test;
      assert RefersDown(s, id, r);
      if r.Combines() {
        AnswerIsForSeen(s, AsId(r.value1));
        if r.kind != NOT {
          AnswerIsForSeen(s, AsId(r.value2));
        }
      }
    }
  }

  /** So it is right exactly if the leaves' flags and the other conditions make no difference to who needs a target. */
  lemma AnswerIsRightIff(s: Store, id: Id)
    requires Sound(s) && id in s
    ensures (CanBeUsedWithoutPlayer(s, id) <==>
               forall a: Args :: a.source.Some? ==> Checks(FormulaOf(s, id), Dropped(a)) == Checks(FormulaOf(s, id), a))
            <==> (TargetFree(Seen(s, id), false) <==> TargetFree(FormulaOf(s, id), false))
  {
    AnswerIsForSeen(s, id);
    TargetFreeIff(FormulaOf(s, id));
  }

  /** Where swaps play no part, exactly when the third and fourth conditions can do without a target is a yes right. */
  lemma {:induction false} AnswerIsRight(s: Store, id: Id)
    requires Sound(s) && id in s && Unswapped(s, id)
    ensures TargetFree(FormulaOf(s, id), false) <==> CanBeUsedWithoutPlayer(s, id) && ExtrasFree(s, id)
    decreases id
  {
    var r := s[id].test;
    assert RefersDown(s, id, r);
    if r.Combines() {
      CombinedFree(s, id, false);
      hide FormulaOf, TargetFree;
      AnswerIsRight(s, AsId(r.value1));
      if r.kind != NOT {
        AnswerIsRight(s, AsId(r.value2));
      }
    }
  }

  /** Neither a swap flag nor a third or fourth condition, on the row and on all it refers to. */
  predicate Plain(s: Store, id: Id)
    requires Sound(s) && id in s
    decreases id
  {
    var r := s[id].test;
    assert RefersDown(s, id, r);
    && !s[id].swap
    && (r.Combines() ==>
          && r.value3 == 0 && r.value4 == 0
          && Plain(s, AsId(r.value1)) && (r.kind != NOT ==> Plain(s, AsId(r.value2))))
  }

  lemma {:induction false} PlainIsBoth(s: Store, id: Id)
    requires Sound(s) && id in s && Plain(s, id)
    ensures Unswapped(s, id) && ExtrasFree(s, id)
    decreases id
  {
    var r := s[id].test;
    assert RefersDown(s, id, r);
    if r.Combines() {
      PlainIsBoth(s, AsId(r.value1));
      if r.kind != NOT {
        PlainIsBoth(s, AsId(r.value2));
      }
    }
  }

  /** For a plain row the answer is right both ways: leaving a target out changes no check exactly if it says so. */
  lemma PlainAnswer(s: Store, id: Id)
    requires Sound(s) && id in s && Plain(s, id)
    ensures CanBeUsedWithoutPlayer(s, id) <==>
            forall a: Args :: a.source.Some? ==> Checks(FormulaOf(s, id), Dropped(a)) == Checks(FormulaOf(s, id), a)
  {
    PlainIsBoth(s, id);
    AnswerIsRight(s, id);
    TargetFreeIff(FormulaOf(s, id));
  }

  /** A swap flag turns a source's leaf into one that wants the target, which the answer does not see. */
  lemma SwapIsOverlooked()
    ensures var s: Store := map[1 := Row(Test(16, 1, 0, 0, 0), false, true)];
            var a := Args(Some(Object(1, Player)), false, Some(Object(2, Creature)));
            && Sound(s) && CanBeUsedWithoutPlayer(s, 1)
            && Checks(FormulaOf(s, 1), a) == [true] && Checks(FormulaOf(s, 1), Dropped(a)) == [false]
  {
  }

  /** Nor does it see a third condition. */
  lemma ThirdIsOverlooked()
    ensures var s: Store := map[1 := Row(Test(NONE, 0, 0, 0, 0), false, false), 2 := Row(Test(2, 6948, 1, 0, 0), false, false),
                                3 := Row(Test(OR, 1, 1, 2, 0), false, false)];
            var a := Args(Some(Object(1, Player)), false, Some(Object(2, Creature)));
            && Sound(s) && CanBeUsedWithoutPlayer(s, 3)
            && Checks(FormulaOf(s, 3), a) == [true, true, true] && Checks(FormulaOf(s, 3), Dropped(a)) == [false, true, true]
  {
    var none, item := Row(Test(NONE, 0, 0, 0, 0), false, false), Row(Test(2, 6948, 1, 0, 0), false, false);
    var s: Store := map[1 := none, 2 := item, 3 := Row(Test(OR, 1, 1, 2, 0), false, false)];
    assert RefersDown(s, 3, s[3].test) && Sound(s);
    assert CanBeUsedWithoutPlayer(s, 1);
    assert FormulaOf(s, 2) == Leaf(item) && FormulaOf(s, 1) == Leaf(none);
    assert Combined(s, 3) == Or(Leaf(item), Or(Leaf(none), Leaf(none)));
    assert FormulaOf(s, 3) == Combined(s, 3);
    hide FormulaOf, Combined;
  }
}
