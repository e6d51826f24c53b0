/** Loading the conditions: rows that do not check out are erased, in ascending order of their entries. */
module ConditionStore {
  import opened Conditions
  import opened ConditionEnd

  /** What checking the values of a row without children comes to; gone means it names something not in this version. */
  datatype LeafCheck = Good | Bad | Gone

  type LeafRules = Test -> LeafCheck

  datatype Verdict = Keep(row: Row) | Skip

  /** The empty condition in place of one that cannot be met here. */
  function Disabled(r: Row): Row
  {
    Row(r.test.(kind := NONE), !r.reverse, r.swap)
  }

  /** NOT is checked for its first value only. */
  predicate RefersToRows(s: Store, id: Id, t: Test)
  {
    && Lower(s, id, t.value1)
    && (t.kind != NOT ==> Lower(s, id, t.value2) && LowerIfAny(s, id, t.value3) && LowerIfAny(s, id, t.value4))
  }

  function Judged(s: Store, check: LeafRules, id: Id, r: Row): Verdict
  {
    if r.test.Combines() then if RefersToRows(s, id, r.test) then Keep(r) else Skip
    else
      match check(r.test)
      case Good => Keep(r)
      case Bad => Skip
      case Gone => Keep(Disabled(r))
  }

  function Checked(s: Store, check: LeafRules, id: Id): Store
  {
    if id !in s then s
    else
      var v := Judged(s, check, id, s[id]);
      if v.Keep? then s[id := v.row] else s - {id}
  }

  /** The store once the entries below n have been gone through. */
  function Loaded(s: Store, check: LeafRules, n: nat): Store
  {
    if n == 0 then s else Checked(Loaded(s, check, n - 1), check, n - 1)
  }

  lemma {:induction false} NotYet(s: Store, check: LeafRules, n: nat, id: Id)
    requires n <= id
    ensures id in Loaded(s, check, n) <==> id in s
    ensures id in s ==> Loaded(s, check, n)[id] == s[id]
  {
    if n > 0 {
      NotYet(s, check, n - 1, id);
    }
  }

  lemma {:induction false} Settled(s: Store, check: LeafRules, n: nat, m: nat, id: Id)
    requires id < n <= m
    ensures id in Loaded(s, check, n) <==> id in Loaded(s, check, m)
    ensures id in Loaded(s, check, n) ==> Loaded(s, check, n)[id] == Loaded(s, check, m)[id]
    decreases m
  {
    if n < m {
      Settled(s, check, n, m - 1, id);
    }
  }

  /** A verdict depends on nothing but which lower entries there are. */
  lemma SameVerdict(s: Store, t: Store, check: LeafRules, id: Id, r: Row)
    requires forall j :: 0 <= j < id ==> (j in s <==> j in t)
    ensures Judged(s, check, id, r) == Judged(t, check, id, r)
  {
  }

  /** Loading keeps exactly the rows that check out against what is left in the end, as they are judged there. */
  lemma LoadIsFinal(s: Store, check: LeafRules, n: nat, id: Id)
    requires id < n
    ensures var t := Loaded(s, check, n);
            && (id in t <==> id in s && Judged(t, check, id, s[id]).Keep?)
            && (id in t ==> t[id] == Judged(t, check, id, s[id]).row)
  {
    var before, t := Loaded(s, check, id), Loaded(s, check, n);
    NotYet(s, check, id, id);
    Settled(s, check, id + 1, n, id);
    if id in s {
      forall j | 0 <= j < id
        ensures j in before <==> j in t
      {
        Settled(s, check, id, n, j);
      }
      SameVerdict(before, t, check, id, s[id]);
    }
  }

  predicate Below(s: Store, n: nat)
  {
    forall id :: id in s ==> id < n
  }

  lemma {:induction false} LoadedBelow(s: Store, check: LeafRules, n: nat, m: nat)
    requires Below(s, m)
    ensures Below(Loaded(s, check, n), m)
  {
    if n > 0 {
      LoadedBelow(s, check, n - 1, m);
    }
  }

  /** A NOT whose third and fourth values nobody checked refers down all the same. */
  predicate NotsReferDown(s: Store)
  {
    forall id :: id in s && s[id].test.kind == NOT ==>
      LowerIfAny(s, id, s[id].test.value3) && LowerIfAny(s, id, s[id].test.value4)
  }

  /** After loading, all references go down to rows that are there, but for what NOT rows leave unchecked. */
  lemma LoadRefersDown(s: Store, check: LeafRules, n: nat, id: Id)
    requires Below(s, n) && id in Loaded(s, check, n)
    ensures var t := Loaded(s, check, n); id < n && (t[id].test.Combines() ==> RefersToRows(t, id, t[id].test))
  {
    LoadedBelow(s, check, n, n);
    LoadIsFinal(s, check, n, id);
  }

  /** So the store refers down exactly if the NOT rows do. */
  lemma LoadIsSound(s: Store, check: LeafRules, n: nat)
    requires Below(s, n)
    ensures Sound(Loaded(s, check, n)) <==> NotsReferDown(Loaded(s, check, n))
  {
    var t := Loaded(s, check, n);
    forall id | id in t
      ensures t[id].test.Combines() ==> RefersToRows(t, id, t[id].test)
    {
      LoadRefersDown(s, check, n, id);
    }
    if Sound(t) {
      assert forall id :: id in t ==> RefersDown(t, id, t[id].test);
    }
    if NotsReferDown(t) {
      assert forall id :: id in t ==> RefersDown(t, id, t[id].test);
    }
  }

  /** A ranking that no reference climbs, and that falls from a NOT to its third and fourth, which are there. */
  predicate ExtrasFall(s: Store, rank: Id -> nat)
  {
    forall id :: id in s && s[id].test.Combines() ==>
      var t := s[id].test;
      && NoHigher(rank, id, t.value1) && (t.kind != NOT ==> NoHigher(rank, id, t.value2))
      && (t.value3 != 0 ==> if t.kind == NOT then FallsTo(s, rank, id, t.value3) else NoHigher(rank, id, t.value3))
      && (t.value4 != 0 ==> if t.kind == NOT then FallsTo(s, rank, id, t.value4) else NoHigher(rank, id, t.value4))
  }

  predicate NoHigher(rank: Id -> nat, id: Id, v: int)
  {
    rank(AsId(v)) <= rank(id)
  }

  lemma RankedBelow(rank: Id -> nat, n: nat, i: Id, j: Id)
    requires i < n && j < n && (rank(i) < rank(j) || (rank(i) == rank(j) && i < j))
    ensures rank(i) * n + i < rank(j) * n + j
  {
    if rank(i) < rank(j) {
      assert (rank(i) + 1) * n <= rank(j) * n;
    }
  }

  /** After loading there is an answer for every row, whatever the world, if the unchecked references fall in some ranking. */
  lemma LoadEnds(s: Store, check: LeafRules, n: nat, rank: Id -> nat, w: World, id: Id, a: Args)
    requires Below(s, n) && ExtrasFall(Loaded(s, check, n), rank) && id in Loaded(s, check, n)
    ensures var t := Loaded(s, check, n); Eval(t, w, id, a, 2 * |t|).Answer?
  {
    var t, both := Loaded(s, check, n), ThenById(rank, n);
    LoadFalls(s, check, n, rank);
    hide Loaded, Eval, Falls, ThenById, ExtrasFall, Below;
    RankEnds(t, both, w, id, a, both(id) + 1);
    DeepEnough(t, w, id, a, both(id) + 1);
  }

  /** By rank first, and by entry within a rank, for entries below n. */
  function ThenById(rank: Id -> nat, n: nat): Id -> nat
  {
    (i: Id) => rank(i) * n + i
  }

  lemma LoadFalls(s: Store, check: LeafRules, n: nat, rank: Id -> nat)
    requires Below(s, n) && ExtrasFall(Loaded(s, check, n), rank)
    ensures Falls(Loaded(s, check, n), ThenById(rank, n))
  {
    var t, both := Loaded(s, check, n), ThenById(rank, n);
    LoadedBelow(s, check, n, n);
    forall i | i in t && t[i].test.Combines()
      ensures RefersToRows(t, i, t[i].test)
    {
      LoadRefersDown(s, check, n, i);
    }
    forall i, j | i in t && j in t && (rank(i) < rank(j) || (rank(i) == rank(j) && i < j))
      ensures both(i) < both(j)
    {
      RankedBelow(rank, n, i, j);
    }
    hide Loaded, ThenById;
  }

  /** A NOT whose third value is itself is loaded, and evaluating it never ends, whatever the world and the arguments. */
  lemma NotMayReferToItself(check: LeafRules, w: World, a: Args, depth: nat)
    requires check(Test(NONE, 0, 0, 0, 0)) == Good
    ensures var s: Store := map[1 := Row(Test(NONE, 0, 0, 0, 0), false, false), 2 := Row(Test(NOT, 1, 0, 2, 0), false, false)];
            Loaded(s, check, 3) == s && Eval(s, w, 2, a, depth).TooDeep?
  {
    var s: Store := map[1 := Row(Test(NONE, 0, 0, 0, 0), false, false), 2 := Row(Test(NOT, 1, 0, 2, 0), false, false)];
    assert Loaded(s, check, 0) == s;
    assert Loaded(s, check, 1) == s;
    assert Loaded(s, check, 2) == s[1 := s[1]] == s;
    assert Loaded(s, check, 3) == s[2 := s[2]] == s;
    TrapNeverEnds(s, {2}, w, 2, a, depth);
  }

  /** Upwards they may lead as well, and evaluation ends nevertheless. */
  lemma NotMayReferUp(check: LeafRules, w: World, id: Id, a: Args)
    requires check(Test(NONE, 0, 0, 0, 0)) == Good && id in {1, 2, 3}
    ensures var none := Row(Test(NONE, 0, 0, 0, 0), false, false);
            var s: Store := map[1 := none, 2 := Row(Test(NOT, 1, 0, 3, 0), false, false), 3 := none];
            Loaded(s, check, 4) == s && !Sound(s) && Eval(s, w, id, a, 2 * |s|).Answer?
  {
    var none := Row(Test(NONE, 0, 0, 0, 0), false, false);
    var s: Store := map[1 := none, 2 := Row(Test(NOT, 1, 0, 3, 0), false, false), 3 := none];
    assert Loaded(s, check, 0) == s;
    assert Loaded(s, check, 1) == s;
    assert Loaded(s, check, 2) == s[1 := s[1]] == s;
    assert Loaded(s, check, 3) == s[2 := s[2]] == s;
    assert Loaded(s, check, 4) == s[3 := s[3]] == s;
    UpFalls(s);
    hide Loaded, Eval;
    LoadEnds(s, check, 4, (i: Id) => if i == 2 then 1 else 0, w, id, a);
  }

  lemma UpFalls(s: Store)
    requires var none := Row(Test(NONE, 0, 0, 0, 0), false, false);
             s == map[1 := none, 2 := Row(Test(NOT, 1, 0, 3, 0), false, false), 3 := none]
    ensures !Sound(s) && ExtrasFall(s, (i: Id) => if i == 2 then 1 else 0) && Below(s, 4)
  {
    assert !RefersDown(s, 2, s[2].test);
  }

  /** A row that is disabled is met exactly when it is reversed, whoever asks. */
  lemma DisabledIs(s: Store, w: World, id: Id, a: Args, r: Row)
    requires Sound(s) && id in s && s[id] == Disabled(r)
    ensures Meets(s, w, id, a) == r.reverse
  {
    assert RefersDown(s, id, s[id].test);
  }

  class Storage {
    var rows: Store

    constructor (rows: Store)
      ensures this.rows == rows
    {
      this.rows := rows;
    }

    /** May put the empty condition in place of the row. */
    method IsValid(check: LeafRules, id: Id) returns (valid: bool)
      requires id in rows
      modifies this
      ensures valid <==> Judged(old(rows), check, id, old(rows)[id]).Keep?
      ensures rows == if valid then old(rows)[id := Judged(old(rows), check, id, old(rows)[id]).row] else old(rows)
    {
      var t := rows[id].test;
      assert rows[id := rows[id]] == rows;
      if t.kind == NOT {
        return Lower(rows, id, t.value1);
      } else if t.Combines() {
        if !Lower(rows, id, t.value1) || !Lower(rows, id, t.value2) {
          return false;
        }
        if t.value3 != 0 && !Lower(rows, id, t.value3) {
          return false;
        }
        if t.value4 != 0 && !Lower(rows, id, t.value4) {
          return false;
        }
        return true;
      }
      match check(t)
      case Bad => return false;
      case Gone =>
        rows := rows[id := Disabled(rows[id])];
        return true;
      case Good => return true;
    }

    method LoadConditions(check: LeafRules, maxEntry: nat)
      requires Below(rows, maxEntry)
      modifies this
      ensures rows == Loaded(old(rows), check, maxEntry)
    {
      for i := 0 to maxEntry
        invariant rows == Loaded(old(rows), check, i)
      {
        if i in rows {
          var valid := IsValid(check, i);
          if !valid {
            rows := rows - {i};
          }
        }
      }
    }
  }
}
