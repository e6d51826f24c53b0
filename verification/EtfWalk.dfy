/**
 Which values survive being written and read back. The builder ends an empty array twice, so that its bytes read as two empty
 arrays: from the first one on, the reader lags behind the writer. Everything the reader then meets is an end of an array,
 either alone or as an array of no items, and only another empty array or the end of an array may be read as such.
 */
module EtfWalk {
  import opened Wrappers
  import opened EtfTerm

  /** What the reader does for a value, in order: reads an empty array, closes an array, or reads anything else. */
  datatype Op = Read | Empty | Close

  function Ops(j: Json): (r: seq<Op>)
    ensures r != []
    decreases j, 0
  {
    match j
    case Arr(items) => if items == [] then [Empty] else [Read] + (ItemOps(items) + [Close])
    case Obj(members) => [Read] + MemberOps(members)
    case _ => [Read]
  }

  function ItemOps(items: seq<Json>): seq<Op>
    decreases items, 1
  {
    if items == [] then [] else Ops(items[0]) + ItemOps(items[1..])
  }

  function MemberOps(members: seq<Member>): seq<Op>
    decreases members, 1
  {
    if members == [] then [] else ([Read] + Ops(members[0].value)) + MemberOps(members[1..])
  }

  /** What lies between reader and writer: the end of an array, or a whole array of no items. */
  datatype Token = Nil | NoItems

  /** What the writer adds for an operation, once the reader lags. */
  function Added(op: Op): seq<Token>
  {
    match op
    case Read => []
    case Empty => [Nil, NoItems]
    case Close => [Nil]
  }

  /** The tokens ahead of the reader after an operation, if it comes out right: it takes the first of them for the operation. */
  function Step(q: seq<Token>, op: Op): Option<seq<Token>>
  {
    match op
    case Read => if q == [] then Some([]) else None
    case Empty => Some((q + [Nil, NoItems])[1..])
    case Close => if (q + [Nil])[0] == Nil then Some((q + [Nil])[1..]) else None
  }

  function Walk(q: seq<Token>, ops: seq<Op>): Option<seq<Token>>
    decreases |ops|
  {
    if ops == [] then Some(q)
    else
      var next := Step(q, ops[0]);
      if next.None? then None else Walk(next.value, ops[1..])
  }

  lemma {:induction false} WalkSplit(q: seq<Token>, a: seq<Op>, b: seq<Op>)
    ensures Walk(q, a + b) == if Walk(q, a).None? then None else Walk(Walk(q, a).value, b)
    decreases |a|
  {
    if a == [] {
      assert a + b == b;
    } else {
      assert (a + b)[1..] == a[1..] + b;
      if Step(q, a[0]).Some? {
        WalkSplit(Step(q, a[0]).value, a[1..], b);
      }
    }
  }

  lemma WalkOne(q: seq<Token>, op: Op)
    ensures Walk(q, [op]) == Step(q, op)
  {
    if Step(q, op).Some? {
      assert [op][1..] == [];
    }
  }

  // ----- Without running it -----

  function AllAdded(ops: seq<Op>): (r: seq<Token>)
    ensures Read !in ops ==> |r| >= |ops|
    decreases |ops|
  {
    if ops == [] then [] else Added(ops[0]) + AllAdded(ops[1..])
  }

  function FirstEmpty(ops: seq<Op>): (k: nat)
    ensures k <= |ops| && Empty !in ops[..k] && (k < |ops| ==> ops[k] == Empty)
    decreases |ops|
  {
    if ops == [] || ops[0] == Empty then 0
    else
      var k := FirstEmpty(ops[1..]);
      assert ops[..k + 1] == [ops[0]] + ops[1..][..k];
      k + 1
  }

  /** Where an operation closes an array, the token there is an end alone. */
  predicate EndsAlone(tokens: seq<Token>, ops: seq<Op>)
    requires |ops| <= |tokens|
  {
    forall i :: 0 <= i < |ops| && ops[i] == Close ==> tokens[i] == Nil
  }

  /** The operations after the first empty array come out right: they read nothing but empty arrays and ends that are there. */
  predicate Lags(rest: seq<Op>)
  {
    Read !in rest && EndsAlone([NoItems] + AllAdded(rest), rest)
  }

  predicate Survives(j: Json)
  {
    var ops := Ops(j);
    var k := FirstEmpty(ops);
    k == |ops| || Lags(ops[k + 1..])
  }

  lemma {:induction false} WalkClean(ops: seq<Op>)
    requires Empty !in ops
    ensures Walk([], ops) == Some([])
    decreases |ops|
  {
    if ops != [] {
      assert ops[0] in ops && forall o :: o in ops[1..] ==> o in ops;
      var none: seq<Token> := [];
      assert none + [Nil] == [Nil] && [Nil][1..] == none;
      WalkClean(ops[1..]);
    }
  }

  lemma {:induction false} WalkLagging(q: seq<Token>, rest: seq<Op>)
    requires q != []
    ensures Walk(q, rest).Some? <==> Read !in rest && EndsAlone(q + AllAdded(rest), rest)
    decreases |rest|
  {
    hide EndsAlone;
    if rest == [] {
      NothingEnds(q + AllAdded(rest));
    } else {
      var op, later := rest[0], rest[1..];
      assert rest == [op] + later;
      if op != Read && Read !in later {
        var all := q + AllAdded(rest);
        StepLagging(q, op, AllAdded(later));
        EndsFromHere(all, rest);
        WalkLagging((q + Added(op))[1..], later);
      } else if Step(q, op).Some? {
        WalkLagging((q + Added(op))[1..], later);
      }
    }
  }

  lemma NothingEnds(tokens: seq<Token>)
    ensures EndsAlone(tokens, [])
  {
  }

  lemma StepLagging(q: seq<Token>, op: Op, later: seq<Token>)
    requires q != [] && op != Read
    ensures (q + Added(op))[1..] != []
    ensures Step(q, op) == if op == Close && q[0] != Nil then None else Some((q + Added(op))[1..])
    ensures (q + (Added(op) + later))[0] == q[0]
    ensures (q + (Added(op) + later))[1..] == (q + Added(op))[1..] + later
  {
  }

  lemma EndsFromHere(all: seq<Token>, rest: seq<Op>)
    requires rest != [] && |rest| <= |all|
    ensures EndsAlone(all, rest) <==> (rest[0] == Close ==> all[0] == Nil) && EndsAlone(all[1..], rest[1..])
  {
    var tokens, ops := all[1..], rest[1..];
    assert forall i :: 0 <= i < |ops| ==> ops[i] == rest[i + 1] && tokens[i] == all[i + 1];
    assert forall i :: 0 < i < |rest| ==> rest[i] == ops[i - 1] && all[i] == tokens[i - 1];
  }

  lemma StepFirst()
    ensures Step([], Empty) == Some([NoItems])
  {
    var none: seq<Token> := [];
    assert none + [Nil, NoItems] == [Nil, NoItems] && [Nil, NoItems][1..] == [NoItems];
  }

  lemma WalkToFirst(ops: seq<Op>, k: nat)
    requires k < |ops| && Empty !in ops[..k] && ops[k] == Empty
    ensures Walk([], ops) == Walk([NoItems], ops[k + 1..])
  {
    var head, tail := ops[..k], ops[k..];
    assert ops == head + tail && tail[0] == Empty && tail[1..] == ops[k + 1..];
    WalkSplit([], head, tail);
    WalkClean(head);
    StepFirst();
    hide Step;
  }

  /** The reader comes through exactly with the values that survive. */
  lemma SurvivesIsWalk(j: Json)
    ensures Survives(j) <==> Walk([], Ops(j)).Some?
  {
    var ops := Ops(j);
    var k := FirstEmpty(ops);
    hide Walk, EndsAlone, AllAdded, FirstEmpty, Ops;
    if k == |ops| {
      assert ops[..k] == ops;
      WalkClean(ops);
    } else {
      WalkToFirst(ops, k);
      WalkLagging([NoItems], ops[k + 1..]);
    }
  }

  /** Where there is no empty array there is nothing to survive. */
  lemma {:induction false} CleanOps(j: Json)
    requires NoEmptyArray(j)
    ensures Empty !in Ops(j)
    decreases j, 0
  {
    match j
    case Arr(items) => CleanItemOps(items);
    case Obj(members) => CleanMemberOps(members);
    case _ =>
  }

  lemma {:induction false} CleanItemOps(items: seq<Json>)
    requires forall x :: x in items ==> NoEmptyArray(x)
    ensures Empty !in ItemOps(items)
    decreases items, 1
  {
    if items != [] {
      CleanOps(items[0]);
      CleanItemOps(items[1..]);
    }
  }

  lemma {:induction false} CleanMemberOps(members: seq<Member>)
    requires forall m :: m in members ==> NoEmptyArray(m.value)
    ensures Empty !in MemberOps(members)
    decreases members, 1
  {
    if members != [] {
      CleanOps(members[0].value);
      CleanMemberOps(members[1..]);
    }
  }
}
