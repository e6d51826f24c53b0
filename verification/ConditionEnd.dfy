/**
 Evaluating conditions in any store, whatever the rows refer to: a look-up may find nothing, and rows may refer to each other
 in circles. The depth of the calls is what is counted.
 */
module ConditionEnd {
  import opened Wrappers
  import opened Conditions

  /** What comes of evaluating a row: an answer, a look-up without a row, or calls deeper than allowed. */
  datatype Outcome = Answer(met: bool) | Missing | TooDeep

  function OrElse(x: Outcome, y: Outcome): Outcome
  {
    if x == Answer(false) then y else x
  }

  function AndThen(x: Outcome, y: Outcome): Outcome
  {
    if x == Answer(true) then y else x
  }

  function Negated(x: Outcome): Outcome
  {
    if x.Answer? then Answer(!x.met) else x
  }

  function IfAny(v: int, otherwise: bool, ask: Id -> Outcome): Outcome
  {
    if v != 0 then ask(AsId(v)) else Answer(otherwise)
  }

  /** A row's own part, given what the rows it refers to come to. */
  function Combine(w: World, t: Test, a: Args, ask: Id -> Outcome): Outcome
  {
    if t.kind == NOT then
      OrElse(IfAny(t.value3, false, ask), OrElse(IfAny(t.value4, false, ask), Negated(ask(AsId(t.value1)))))
    else if t.kind == OR then
      OrElse(IfAny(t.value3, false, ask),
             OrElse(IfAny(t.value4, false, ask), OrElse(ask(AsId(t.value1)), ask(AsId(t.value2)))))
    else if t.kind == AND then
      AndThen(IfAny(t.value3, true, ask),
              AndThen(IfAny(t.value4, true, ask), AndThen(ask(AsId(t.value1)), ask(AsId(t.value2)))))
    else Answer(Asked(w, t, a))
  }

  function Turned(r: Row, a: Args): Args
  {
    if r.swap then Swapped(a) else a
  }

  /** Evaluation with calls at most so deep. */
  function Eval(s: Store, w: World, id: Id, a: Args, depth: nat): Outcome
    decreases depth
  {
    if id !in s then Missing
    else if depth == 0 then TooDeep
    else
      var r, b := s[id], Turned(s[id], a);
      if !Fits(RequirementOf(r.test.kind), b) then Answer(false)
      else
        var x := Combine(w, r.test, b, (i: Id) => Eval(s, w, i, b, depth - 1));
        if r.reverse then Negated(x) else x
  }

  // ----- More depth changes nothing once it was enough -----

  predicate Extends(x: Outcome, y: Outcome)
  {
    x.TooDeep? || y == x
  }

  lemma CombineExtends(w: World, t: Test, a: Args, ask: Id -> Outcome, more: Id -> Outcome)
    requires forall i :: Extends(ask(i), more(i))
    ensures Extends(Combine(w, t, a, ask), Combine(w, t, a, more))
  {
    assert Extends(ask(AsId(t.value1)), more(AsId(t.value1))) && Extends(ask(AsId(t.value2)), more(AsId(t.value2)));
    assert Extends(ask(AsId(t.value3)), more(AsId(t.value3))) && Extends(ask(AsId(t.value4)), more(AsId(t.value4)));
  }

  lemma {:induction false} MoreDepth(s: Store, w: World, id: Id, a: Args, depth: nat)
    ensures Extends(Eval(s, w, id, a, depth), Eval(s, w, id, a, depth + 1))
    decreases depth
  {
    if id in s && depth > 0 {
      var b := Turned(s[id], a);
      forall i
        ensures Extends(Eval(s, w, i, b, depth - 1), Eval(s, w, i, b, depth))
      {
        MoreDepth(s, w, i, b, depth - 1);
      }
      CombineExtends(w, s[id].test, b, (i: Id) => Eval(s, w, i, b, depth - 1), (i: Id) => Eval(s, w, i, b, depth));
      hide Combine;
    }
  }

  lemma {:induction false} MuchMoreDepth(s: Store, w: World, id: Id, a: Args, depth: nat, more: nat)
    requires depth <= more
    ensures Extends(Eval(s, w, id, a, depth), Eval(s, w, id, a, more))
    decreases more
  {
    if depth < more {
      MuchMoreDepth(s, w, id, a, depth, more - 1);
      MoreDepth(s, w, id, a, more - 1);
    }
  }

  // ----- How deep it can be worth going -----

  function Either(a: Args, swapped: bool): Args
  {
    if swapped then Swapped(a) else a
  }

  /** The rows that are done with at a depth. */
  function Done(s: Store, w: World, a: Args, depth: nat): set<Id>
  {
    set id | id in s && !Eval(s, w, id, a, depth).TooDeep?
  }

  /** At this depth one more brings nothing, with the arguments either way round. */
  ghost predicate Still(s: Store, w: World, a: Args, depth: nat)
  {
    forall id: Id, swapped: bool :: StillAt(s, w, id, Either(a, swapped), depth)
  }

  predicate StillAt(s: Store, w: World, id: Id, a: Args, depth: nat)
  {
    Eval(s, w, id, a, depth) == Eval(s, w, id, a, depth + 1)
  }

  lemma SameAnswers(w: World, t: Test, a: Args, ask: Id -> Outcome, other: Id -> Outcome)
    requires forall i :: ask(i) == other(i)
    ensures Combine(w, t, a, ask) == Combine(w, t, a, other)
  {
  }

  lemma StillStays(s: Store, w: World, a: Args, depth: nat)
    requires Still(s, w, a, depth)
    ensures Still(s, w, a, depth + 1)
  {
    var next := depth + 1;
    forall id: Id, swapped: bool
      ensures StillAt(s, w, id, Either(a, swapped), next)
    {
      var turned := swapped != (id in s && s[id].swap);
      forall i: Id
        ensures StillAt(s, w, i, Either(a, turned), depth)
      {
      }
      StillAbove(s, w, id, Either(a, swapped), depth, Either(a, turned));
    }
  }

  lemma StillAbove(s: Store, w: World, id: Id, a: Args, depth: nat, b: Args)
    requires id in s ==> b == Turned(s[id], a)
    requires forall i :: StillAt(s, w, i, b, depth)
    ensures StillAt(s, w, id, a, depth + 1)
  {
    if id in s {
      forall i: Id
        ensures Eval(s, w, i, b, depth) == Eval(s, w, i, b, depth + 1)
      {
        assert StillAt(s, w, i, b, depth);
      }
      SameAnswers(w, s[id].test, b, (i: Id) => Eval(s, w, i, b, depth), (i: Id) => Eval(s, w, i, b, depth + 1));
      hide Combine;
    }
  }

  lemma {:induction false} StillForGood(s: Store, w: World, a: Args, depth: nat, more: nat)
    requires Still(s, w, a, depth) && depth <= more
    ensures Still(s, w, a, more)
    decreases more
  {
    hide Still;
    if depth < more {
      StillForGood(s, w, a, depth, more - 1);
      StillStays(s, w, a, more - 1);
    }
  }

  lemma {:induction false} SubsetSize<T>(a: set<T>, b: set<T>)
    requires a <= b
    ensures |a| <= |b| && (a != b ==> |a| < |b|)
  {
    if a != {} {
      var x :| x in a;
      SubsetSize(a - {x}, b - {x});
      if a != b {
        assert a - {x} != b - {x} by {
          assert a == (a - {x}) + {x} && b == (b - {x}) + {x};
        }
      }
    }
  }

  lemma DoneGrows(s: Store, w: World, a: Args, depth: nat)
    ensures Done(s, w, a, depth) <= Done(s, w, a, depth + 1)
    ensures Done(s, w, a, depth) == Done(s, w, a, depth + 1) ==> forall id :: StillAt(s, w, id, a, depth)
  {
    forall id
      ensures Extends(Eval(s, w, id, a, depth), Eval(s, w, id, a, depth + 1))
    {
      MoreDepth(s, w, id, a, depth);
    }
    if Done(s, w, a, depth) == Done(s, w, a, depth + 1) {
      forall id
        ensures StillAt(s, w, id, a, depth)
      {
        if id in s && id !in Done(s, w, a, depth) {
          assert id !in Done(s, w, a, depth + 1);
        }
        assert Extends(Eval(s, w, id, a, depth), Eval(s, w, id, a, depth + 1));
      }
    }
  }

  lemma BothStill(s: Store, w: World, a: Args, depth: nat)
    ensures (forall id :: StillAt(s, w, id, a, depth)) && (forall id :: StillAt(s, w, id, Swapped(a), depth)) ==>
              Still(s, w, a, depth)
  {
  }

  /** Until nothing more comes of it, every step down finishes a row. */
  lemma {:induction false} GrowsOrStill(s: Store, w: World, a: Args, depth: nat)
    ensures Still(s, w, a, depth) || |Done(s, w, a, depth)| + |Done(s, w, Swapped(a), depth)| >= depth
    decreases depth
  {
    hide StillAt, Still, Done;
    if depth > 0 {
      GrowsOrStill(s, w, a, depth - 1);
      if Still(s, w, a, depth - 1) {
        StillStays(s, w, a, depth - 1);
      } else {
        DoneGrows(s, w, a, depth - 1);
        DoneGrows(s, w, Swapped(a), depth - 1);
        SubsetSize(Done(s, w, a, depth - 1), Done(s, w, a, depth));
        SubsetSize(Done(s, w, Swapped(a), depth - 1), Done(s, w, Swapped(a), depth));
        BothStill(s, w, a, depth - 1);
      }
    }
  }

  lemma DoneBound(s: Store, w: World, a: Args, depth: nat)
    ensures Done(s, w, a, depth) <= s.Keys && |Done(s, w, a, depth)| <= |s|
    ensures |Done(s, w, a, depth)| == |s| ==> Done(s, w, a, depth) == s.Keys
  {
    SubsetSize(Done(s, w, a, depth), s.Keys);
    assert |s| == |s.Keys|;
  }

  lemma StillInTime(s: Store, w: World, a: Args)
    ensures Still(s, w, a, 2 * |s|)
  {
    var depth := 2 * |s|;
    hide StillAt, Still, Done;
    GrowsOrStill(s, w, a, depth);
    if !Still(s, w, a, depth) {
      DoneBound(s, w, a, depth);
      DoneBound(s, w, Swapped(a), depth);
      DoneBound(s, w, a, depth + 1);
      DoneBound(s, w, Swapped(a), depth + 1);
      DoneGrows(s, w, a, depth);
      DoneGrows(s, w, Swapped(a), depth);
      BothStill(s, w, a, depth);
    }
  }

  /**
   Calls twice as deep as there are rows tell what comes of evaluating a row, in any store: an answer, a look-up without a
   row, or no end at any depth.
   */
  lemma DeepEnough(s: Store, w: World, id: Id, a: Args, depth: nat)
    ensures depth >= 2 * |s| ==> Eval(s, w, id, a, depth) == Eval(s, w, id, a, 2 * |s|)
    ensures !Eval(s, w, id, a, depth).TooDeep? ==> Eval(s, w, id, a, depth) == Eval(s, w, id, a, 2 * |s|)
  {
    hide Eval;
    if depth >= 2 * |s| {
      StillInTime(s, w, a);
      SettledAt(s, w, id, a, 2 * |s|, depth);
    } else {
      MuchMoreDepth(s, w, id, a, depth, 2 * |s|);
    }
  }

  lemma {:induction false} SettledAt(s: Store, w: World, id: Id, a: Args, depth: nat, more: nat)
    requires Still(s, w, a, depth) && depth <= more
    ensures Eval(s, w, id, a, more) == Eval(s, w, id, a, depth)
    decreases more
  {
    hide Eval;
    if depth < more {
      SettledAt(s, w, id, a, depth, more - 1);
      StillForGood(s, w, a, depth, more - 1);
      assert Either(a, false) == a;
      assert StillAt(s, w, id, Either(a, false), more - 1);
    }
  }

  // ----- When there is an answer -----

  /** What evaluating a row may look up is there, and ranked lower. */
  predicate Falls(s: Store, rank: Id -> nat)
  {
    forall id :: id in s && s[id].test.Combines() ==>
      var t := s[id].test;
      && FallsTo(s, rank, id, t.value1)
      && (t.kind != NOT ==> FallsTo(s, rank, id, t.value2))
      && (t.value3 != 0 ==> FallsTo(s, rank, id, t.value3))
      && (t.value4 != 0 ==> FallsTo(s, rank, id, t.value4))
  }

  predicate FallsTo(s: Store, rank: Id -> nat, id: Id, v: int)
  {
    AsId(v) in s && rank(AsId(v)) < rank(id)
  }

  lemma CombineAnswers(w: World, t: Test, a: Args, ask: Id -> Outcome)
    requires t.Combines() ==>
               && ask(AsId(t.value1)).Answer? && (t.kind != NOT ==> ask(AsId(t.value2)).Answer?)
               && (t.value3 != 0 ==> ask(AsId(t.value3)).Answer?) && (t.value4 != 0 ==> ask(AsId(t.value4)).Answer?)
    ensures Combine(w, t, a, ask).Answer?
  {
  }

  /** With any ranking that falls along all references there is an answer for every row. */
  lemma {:induction false} RankEnds(s: Store, rank: Id -> nat, w: World, id: Id, a: Args, depth: nat)
    requires Falls(s, rank) && id in s && rank(id) < depth
    ensures Eval(s, w, id, a, depth).Answer?
    decreases depth
  {
    var b := Turned(s[id], a);
    var ask := (i: Id) => Eval(s, w, i, b, depth - 1);
    forall i | i in s && rank(i) < rank(id)
      ensures ask(i).Answer?
    {
      RankEnds(s, rank, w, i, b, depth - 1);
    }
    CombineAnswers(w, s[id].test, b, ask);
    hide Combine;
  }

  /** A store that refers down is one whose entries themselves are such a ranking. */
  lemma SoundIsRanked(s: Store)
    ensures Sound(s) <==> Falls(s, (i: Id) => i)
  {
    if Sound(s) {
      assert forall id :: id in s ==> RefersDown(s, id, s[id].test);
    }
    if Falls(s, (i: Id) => i) {
      assert forall id :: id in s ==> RefersDown(s, id, s[id].test);
    }
  }

  /** There, evaluation with enough depth is evaluation. */
  lemma {:induction false} EvalIsMeets(s: Store, w: World, id: Id, a: Args, depth: nat)
    requires Sound(s) && id in s && id < depth
    ensures Eval(s, w, id, a, depth) == Answer(Meets(s, w, id, a))
    decreases depth
  {
    var b := Turned(s[id], a);
    var ask := (i: Id) => Eval(s, w, i, b, depth - 1);
    assert RefersDown(s, id, s[id].test);
    forall i | i in s && i < id
      ensures ask(i) == Answer(Meets(s, w, i, b))
    {
      EvalIsMeets(s, w, i, b, depth - 1);
    }
    CombineIsEvaluate(s, w, id, b, ask);
    hide Combine, Evaluate;
  }

  lemma CombineIsEvaluate(s: Store, w: World, id: Id, a: Args, ask: Id -> Outcome)
    requires Sound(s) && id in s
    requires forall i :: i in s && i < id ==> ask(i) == Answer(Meets(s, w, i, a))
    ensures Combine(w, s[id].test, a, ask) == Answer(Evaluate(s, w, id, a))
  {
    assert RefersDown(s, id, s[id].test);
    hide Meets;
  }

  // ----- When there is none -----

  /** The row that evaluating a combining row looks up first. */
  function First(t: Test): Id
  {
    AsId(if t.value3 != 0 then t.value3 else if t.value4 != 0 then t.value4 else t.value1)
  }

  /** Rows whose first look-ups stay among them. */
  predicate Trap(s: Store, rows: set<Id>)
  {
    forall id :: id in rows ==> id in s && s[id].test.Combines() && First(s[id].test) in rows
  }

  /** Evaluating one of them never ends, whatever the world and the arguments. */
  lemma {:induction false} TrapNeverEnds(s: Store, rows: set<Id>, w: World, id: Id, a: Args, depth: nat)
    requires Trap(s, rows) && id in rows
    ensures Eval(s, w, id, a, depth).TooDeep?
    decreases depth
  {
    if depth > 0 {
      var t, b := s[id].test, Turned(s[id], a);
      TrapNeverEnds(s, rows, w, First(t), b, depth - 1);
      FirstDecides(w, t, b, (i: Id) => Eval(s, w, i, b, depth - 1));
      hide Combine, First;
    }
  }

  lemma FirstDecides(w: World, t: Test, a: Args, ask: Id -> Outcome)
    requires t.Combines() && ask(First(t)).TooDeep?
    ensures RequirementOf(t.kind).ReqNone? && Combine(w, t, a, ask).TooDeep?
  {
  }
}
