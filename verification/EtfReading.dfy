/** Reading back any value, with the reader where the writer is or behind: right exactly when the walk comes through. */
module EtfReading {
  import opened Bytes
  import opened Wrappers
  import opened EtfTerm
  import opened EtfDecode
  import opened EtfPieces
  import opened EtfWalk

  const EMPTY: Json := Arr([])

  // ----- The bytes between reader and writer -----

  function TokenTerm(t: Token): seq<byte>
  {
    match t
    case Nil => [TAG_NIL]
    case NoItems => ([TAG_LIST] + BigEndian(0, 4)) + [TAG_NIL]
  }

  function TokenBytes(q: seq<Token>): seq<byte>
  {
    if q == [] then [] else TokenTerm(q[0]) + TokenBytes(q[1..])
  }

  lemma {:induction false} TokenBytesConcat(a: seq<Token>, b: seq<Token>)
    ensures TokenBytes(a + b) == TokenBytes(a) + TokenBytes(b)
    decreases |a|
  {
    if a == [] {
      assert a + b == b;
    } else {
      assert (a + b)[1..] == a[1..] + b;
      TokenBytesConcat(a[1..], b);
    }
  }

  /** The reader has these tokens ahead before it reaches where the writer's text goes on. */
  predicate Stands(data: seq<byte>, at: nat, q: seq<Token>, writer: nat)
  {
    at + |TokenBytes(q)| == writer && Occurs(data, at, TokenBytes(q))
  }

  lemma StandsMore(data: seq<byte>, at: nat, q: seq<Token>, writer: nat, more: seq<Token>)
    requires Stands(data, at, q, writer) && Occurs(data, writer, TokenBytes(more))
    ensures Stands(data, at, q + more, writer + |TokenBytes(more)|)
  {
    hide TokenBytes, Occurs;
    TokenBytesConcat(q, more);
    OccursSplit(data, at, TokenBytes(q), TokenBytes(more));
  }

  lemma StandsNext(data: seq<byte>, at: nat, q: seq<Token>, writer: nat)
    requires Stands(data, at, q, writer) && q != []
    ensures Occurs(data, at, TokenTerm(q[0])) && Stands(data, at + |TokenTerm(q[0])|, q[1..], writer)
  {
    OccursSplit(data, at, TokenTerm(q[0]), TokenBytes(q[1..]));
  }

  lemma StandsHere(data: seq<byte>, at: nat)
    requires at <= |data|
    ensures Stands(data, at, [], at)
  {
  }

  lemma OneToken(t: Token)
    ensures TokenBytes([t]) == TokenTerm(t)
  {
    assert [t][1..] == [];
    assert TokenBytes([t]) == TokenTerm(t) + TokenBytes([]);
  }

  lemma EmptyTerm()
    ensures Term(EMPTY) == TokenBytes([Nil, NoItems])
  {
    OneToken(NoItems);
    assert [Nil, NoItems][1..] == [NoItems];
    var none: seq<Json> := [];
    assert ItemTerms(none) + [TAG_NIL] == [TAG_NIL];
    var head := [TAG_LIST] + BigEndian(0, 4);
    assert Term(EMPTY) == [TAG_NIL] + head + (ItemTerms(none) + [TAG_NIL]);
    assert [TAG_NIL] + head + [TAG_NIL] == [TAG_NIL] + (head + [TAG_NIL]);
  }

  /** Any token reads as an empty array; only an end alone ends an array. */
  lemma TokenAt(p: Platform, data: seq<byte>, at: nat, t: Token)
    requires Occurs(data, at, TokenTerm(t))
    ensures at < |data| && (data[at] == TAG_NIL <==> t == Nil)
    ensures Decode(p, data, at) == Parsed(EMPTY, at + |TokenTerm(t)|)
  {
    match t
    case Nil => assert data[at..at + 1][0] == TAG_NIL;
    case NoItems =>
      OccursSplit(data, at, [TAG_LIST] + BigEndian(0, 4), [TAG_NIL]);
      HeaderAt(data, at, TAG_LIST, 0);
      var none: seq<Json> := [];
      assert none + none == none;
      ListEnds(p, data, at, 0, none, at + 5);
  }

  /** The byte after the values decides between the list and null. */
  lemma ListEnds(p: Platform, data: seq<byte>, at: nat, count: nat, items: seq<Json>, end: nat)
    requires count < TWO_32 && Occurs(data, at, [TAG_LIST] + BigEndian(count, 4)) && at + 5 <= |data|
    requires Items(p, data, at + 5, count, []) == Parsed(items, end) && end < |data|
    ensures Decode(p, data, at) == Parsed(if data[end] == TAG_NIL then Arr(items) else Null, end + 1)
  {
    HeaderAt(data, at, TAG_LIST, count);
    ByteAt(data, end, data[end]);
  }

  // ----- What a wrong result misses -----

  /** A value with the arrays of another: where that has an array this has one of as many items, and nowhere else. */
  predicate Shaped(v: Json, j: Json)
    decreases j
  {
    match j
    case Arr(items) => v.Arr? && |v.items| == |items| && forall i :: 0 <= i < |items| ==> Shaped(v.items[i], items[i])
    case Obj(members) =>
      if members == [] then !v.Arr?
      else
        v.Obj? && forall i :: 0 <= i < |members| ==>
          members[i].key in Bindings(v.members) && Shaped(Bindings(v.members)[members[i].key], members[i].value)
    case _ => !v.Arr?
  }

  lemma EmptyIsNotShaped(j: Json)
    requires j != EMPTY
    ensures !Shaped(EMPTY, j)
  {
  }

  // ----- The reading -----

  /** A value comes out right, with the reader left where the walk leaves it; or it comes out with a wrong shape, if at all. */
  ghost predicate Reads(p: Platform, data: seq<byte>, at: nat, writer: nat, j: Json, q: Option<seq<Token>>)
    requires at <= |data|
  {
    if q.Some? then
      && |TokenBytes(q.value)| <= writer
      && Decode(p, data, at) == Parsed(Normal(j), writer - |TokenBytes(q.value)|)
      && Stands(data, writer - |TokenBytes(q.value)|, q.value, writer)
    else Decode(p, data, at).Parsed? ==> !Shaped(Decode(p, data, at).value, j)
  }

  /** The same of several values in a row, the first of which come before these. */
  ghost predicate ReadsItems(p: Platform, data: seq<byte>, at: nat, writer: nat, items: seq<Json>, acc: seq<Json>,
                             q: Option<seq<Token>>)
    requires at <= |data|
  {
    var r := Items(p, data, at, |items|, acc);
    if q.Some? then
      && |TokenBytes(q.value)| <= writer
      && r == Parsed(acc + NormalItems(items), writer - |TokenBytes(q.value)|)
      && Stands(data, writer - |TokenBytes(q.value)|, q.value, writer)
    else r.Parsed? ==> exists i :: WrongAt(r.value, acc, items, i)
  }

  predicate WrongAt(values: seq<Json>, acc: seq<Json>, items: seq<Json>, i: nat)
  {
    i < |items| && |acc| + i < |values| && !Shaped(values[|acc| + i], items[i])
  }

  /** An empty array: the reader takes the first token, the writer leaves two. */
  lemma ReadEmpty(p: Platform, data: seq<byte>, at: nat, q: seq<Token>, writer: nat)
    requires Stands(data, at, q, writer) && Occurs(data, writer, Term(EMPTY))
    ensures Reads(p, data, at, writer + |Term(EMPTY)|, EMPTY, Step(q, Empty))
  {
    hide Decode, Occurs, Stands, TokenBytes, TokenTerm, Term;
    EmptyTerm();
    StandsMore(data, at, q, writer, [Nil, NoItems]);
    var all := q + [Nil, NoItems];
    StandsNext(data, at, all, writer + |Term(EMPTY)|);
    TokenAt(p, data, at, all[0]);
    WhereItStands(data, at + |TokenTerm(all[0])|, all[1..], writer + |Term(EMPTY)|);
  }

  /** Behind the writer nothing else is read right. */
  lemma ReadWrong(p: Platform, data: seq<byte>, at: nat, q: seq<Token>, writer: nat, j: Json)
    requires Stands(data, at, q, writer) && q != [] && j != EMPTY
    ensures Reads(p, data, at, writer + |Term(j)|, j, None)
  {
    StandsNext(data, at, q, writer);
    TokenAt(p, data, at, q[0]);
    EmptyIsNotShaped(j);
  }

  lemma OpsAhead(j: Json, q: seq<Token>)
    requires j != EMPTY
    ensures Ops(j)[0] == Read
    ensures q != [] ==> Walk(q, Ops(j)) == None
  {
  }

  /** Reading on keeps what has been read. */
  lemma {:induction false} ItemsExtend(p: Platform, data: seq<byte>, at: nat, count: nat, acc: seq<Json>)
    requires at <= |data|
    ensures var r := Items(p, data, at, count, acc); r.Parsed? ==> acc <= r.value && |r.value| == |acc| + count
    decreases count
  {
    if count > 0 && Decode(p, data, at).Parsed? {
      var r := Decode(p, data, at);
      ItemsExtend(p, data, r.next, count - 1, acc + [r.value]);
    }
  }

  lemma ItemsStep(p: Platform, data: seq<byte>, at: nat, count: nat, acc: seq<Json>)
    requires at <= |data| && count > 0
    ensures var r := Decode(p, data, at);
            if r.Thrown? then Items(p, data, at, count, acc).Thrown?
            else Items(p, data, at, count, acc) == Items(p, data, r.next, count - 1, acc + [r.value])
  {
  }

  /** An item with a wrong shape stays in the result. */
  lemma ItemIsWrong(p: Platform, data: seq<byte>, at: nat, writer: nat, items: seq<Json>, acc: seq<Json>)
    requires at <= |data| && items != [] && Reads(p, data, at, writer, items[0], None)
    ensures var r := Items(p, data, at, |items|, acc); r.Parsed? ==> WrongAt(r.value, acc, items, 0)
  {
    hide Shaped;
    ItemsStep(p, data, at, |items|, acc);
    var r := Decode(p, data, at);
    if r.Parsed? {
      ItemsExtend(p, data, r.next, |items| - 1, acc + [r.value]);
    }
  }

  lemma WrongLater(values: seq<Json>, acc: seq<Json>, item: Json, items: seq<Json>, i: nat)
    requires items != [] && WrongAt(values, acc + [item], items[1..], i)
    ensures WrongAt(values, acc, items, i + 1)
  {
  }

  lemma RegroupItems(acc: seq<Json>, items: seq<Json>)
    requires items != []
    ensures acc + [Normal(items[0])] + NormalItems(items[1..]) == acc + NormalItems(items)
  {
    hide Normal;
    var head, rest := [Normal(items[0])], NormalItems(items[1..]);
    assert NormalItems(items) == head + rest;
    assert acc + head + rest == acc + (head + rest);
  }

  lemma NextItem(p: Platform, data: seq<byte>, at: nat, writer: nat, end: nat, items: seq<Json>, acc: seq<Json>,
                 q: seq<Token>, after: Option<seq<Token>>)
    requires at <= |data| && items != [] && Reads(p, data, at, writer, items[0], Some(q))
    requires ReadsItems(p, data, writer - |TokenBytes(q)|, end, items[1..], acc + [Normal(items[0])], after)
    ensures ReadsItems(p, data, at, end, items, acc, after)
  {
    var next := writer - |TokenBytes(q)|;
    hide Shaped, WrongAt, Decode, Items, Stands, Normal, NormalItems, Term;
    ItemsStep(p, data, at, |items|, acc);
    RegroupItems(acc, items);
    if after.None? {
      var r := Items(p, data, at, |items|, acc);
      if r.Parsed? {
        var i :| WrongAt(r.value, acc + [Normal(items[0])], items[1..], i);
        WrongLater(r.value, acc, Normal(items[0]), items, i);
      }
    }
  }

  // ----- Objects -----

  /** Members to be written after those already there. */
  predicate Due(acc: seq<Member>, members: seq<Member>)
  {
    Ascending(acc) && Ascending(members) && forall a, m :: a in acc && m in members ==> KeyLess(a.key, m.key)
  }

  lemma DueNext(acc: seq<Member>, members: seq<Member>, value: Json)
    requires Due(acc, members) && members != []
    ensures Due(acc + [Member(members[0].key, value)], members[1..])
    ensures Emplace(acc, members[0].key, value) == acc + [Member(members[0].key, value)]
  {
    assert members[0] in members && forall m :: m in members[1..] ==> m in members;
    EmplaceLast(acc, members[0].key, value);
    forall m | m in members[1..]
      ensures KeyLess(members[0].key, m.key)
    {
      var i :| 0 <= i < |members[1..]| && members[1..][i] == m;
      assert members[i + 1] == m;
    }
    assert forall i :: 0 <= i < |acc| ==> acc[i] in acc;
  }

  lemma {:induction false} BindingsLast(acc: seq<Member>, key: seq<byte>, value: Json)
    requires forall a :: a in acc ==> a.key != key
    ensures key in Bindings(acc + [Member(key, value)]) && Bindings(acc + [Member(key, value)])[key] == value
  {
    var all := acc + [Member(key, value)];
    if acc == [] {
      assert all[1..] == [];
    } else {
      assert all[1..] == acc[1..] + [Member(key, value)] && all[0] == acc[0];
      BindingsLast(acc[1..], key, value);
    }
  }

  /** Reading on keeps what keys are bound to. */
  lemma {:induction false} MembersKeep(p: Platform, data: seq<byte>, at: nat, count: nat, acc: seq<Member>, key: seq<byte>)
    requires at <= |data| && Ascending(acc) && key in Bindings(acc)
    ensures var r := Members(p, data, at, count, acc);
            r.Parsed? ==> key in Bindings(r.value) && Bindings(r.value)[key] == Bindings(acc)[key]
    decreases count
  {
    if count > 0 && Decode(p, data, at).Parsed? {
      var k := Decode(p, data, at);
      var name := KeyText(p, k.value, k.next);
      if name.Parsed? && Decode(p, data, name.next).Parsed? {
        var v := Decode(p, data, name.next);
        EmplaceAscending(acc, name.value, v.value);
        EmplaceBinds(acc, name.value, v.value);
        hide Decode, KeyText, Emplace, Ascending, Bindings;
        MembersKeep(p, data, v.next, count - 1, Emplace(acc, name.value, v.value), key);
      }
    }
  }

  predicate WrongMember(values: seq<Member>, members: seq<Member>, i: nat)
  {
    && i < |members| && members[i].key in Bindings(values)
    && !Shaped(Bindings(values)[members[i].key], members[i].value)
  }

  /** The same of the members of an object, which come after those read before. */
  ghost predicate ReadsMembers(p: Platform, data: seq<byte>, at: nat, writer: nat, members: seq<Member>, acc: seq<Member>,
                               q: Option<seq<Token>>)
    requires at <= |data|
  {
    var r := Members(p, data, at, |members|, acc);
    if q.Some? then
      && |TokenBytes(q.value)| <= writer
      && r == Parsed(acc + NormalMembers(members), writer - |TokenBytes(q.value)|)
      && Stands(data, writer - |TokenBytes(q.value)|, q.value, writer)
    else r.Parsed? ==> exists i :: WrongMember(r.value, members, i)
  }

  /** Behind the writer no key is read. */
  lemma KeyIsWrong(p: Platform, data: seq<byte>, at: nat, q: seq<Token>, writer: nat, count: nat, acc: seq<Member>)
    requires Stands(data, at, q, writer) && q != [] && count > 0
    ensures at <= |data| && Members(p, data, at, count, acc).Thrown?
  {
    StandsNext(data, at, q, writer);
    TokenAt(p, data, at, q[0]);
  }

  lemma MembersStep(p: Platform, data: seq<byte>, at: nat, members: seq<Member>, acc: seq<Member>)
    requires members != [] && Due(acc, members) && |members[0].key| < TWO_32 && Occurs(data, at, Binary(members[0].key))
    ensures at + |Binary(members[0].key)| <= |data|
    ensures var v := Decode(p, data, at + |Binary(members[0].key)|);
            if v.Thrown? then Members(p, data, at, |members|, acc).Thrown?
            else Members(p, data, at, |members|, acc)
                 == Members(p, data, v.next, |members| - 1, acc + [Member(members[0].key, v.value)])
  {
    hide Decode, Members, Due, Emplace;
    BinaryAt(p, data, at, members[0].key);
    hide Binary, Occurs;
    MemberRead(p, data, at, |members|, acc, members[0].key, at + |Binary(members[0].key)|);
    var v := Decode(p, data, at + |Binary(members[0].key)|);
    if v.Parsed? {
      DueNext(acc, members, v.value);
    }
  }

  lemma MemberRead(p: Platform, data: seq<byte>, at: nat, count: nat, acc: seq<Member>, key: seq<byte>, next: nat)
    requires at <= |data| && count > 0 && Decode(p, data, at) == Parsed(Str(key), next)
    ensures next <= |data|
    ensures var v := Decode(p, data, next);
            if v.Thrown? then Members(p, data, at, count, acc).Thrown?
            else Members(p, data, at, count, acc) == Members(p, data, v.next, count - 1, Emplace(acc, key, v.value))
  {
    hide Decode, Emplace;
  }

  lemma MemberIsWrong(p: Platform, data: seq<byte>, at: nat, writer: nat, members: seq<Member>, acc: seq<Member>)
    requires members != [] && Due(acc, members) && |members[0].key| < TWO_32 && Occurs(data, at, Binary(members[0].key))
    requires Reads(p, data, at + |Binary(members[0].key)|, writer, members[0].value, None)
    ensures var r := Members(p, data, at, |members|, acc); r.Parsed? ==> WrongMember(r.value, members, 0)
  {
    hide Shaped, Bindings, Members, Decode, Occurs, Binary, Due, Emplace, Ascending, Term, Stands;
    MembersStep(p, data, at, members, acc);
    var v := Decode(p, data, at + |Binary(members[0].key)|);
    if v.Parsed? {
      DueNext(acc, members, v.value);
      InOrder(acc + [Member(members[0].key, v.value)], members[1..]);
      NotAmong(acc, members);
      BindingsLast(acc, members[0].key, v.value);
      MembersKeep(p, data, v.next, |members| - 1, acc + [Member(members[0].key, v.value)], members[0].key);
    }
  }

  lemma InOrder(acc: seq<Member>, members: seq<Member>)
    requires Due(acc, members)
    ensures Ascending(acc)
  {
  }

  lemma NotAmong(acc: seq<Member>, members: seq<Member>)
    requires Due(acc, members) && members != []
    ensures forall a :: a in acc ==> a.key != members[0].key
  {
    assert members[0] in members;
    forall a | a in acc
      ensures a.key != members[0].key
    {
      KeyOrder(a.key, members[0].key);
    }
  }

  lemma RegroupMembers(acc: seq<Member>, members: seq<Member>)
    requires members != []
    ensures acc + [Member(members[0].key, Normal(members[0].value))] + NormalMembers(members[1..])
            == acc + NormalMembers(members)
  {
    hide Normal;
    var head, rest := [Member(members[0].key, Normal(members[0].value))], NormalMembers(members[1..]);
    assert NormalMembers(members) == head + rest;
    assert acc + head + rest == acc + (head + rest);
  }

  lemma NextMember(p: Platform, data: seq<byte>, at: nat, writer: nat, end: nat, members: seq<Member>, acc: seq<Member>,
                   q: seq<Token>, after: Option<seq<Token>>)
    requires members != [] && Due(acc, members) && |members[0].key| < TWO_32 && Occurs(data, at, Binary(members[0].key))
    requires Reads(p, data, at + |Binary(members[0].key)|, writer, members[0].value, Some(q))
    requires ReadsMembers(p, data, writer - |TokenBytes(q)|, end, members[1..],
                          acc + [Member(members[0].key, Normal(members[0].value))], after)
    ensures ReadsMembers(p, data, at, end, members, acc, after)
  {
    hide Shaped, Decode, Members, Due, Occurs, Binary, Bindings, Normal, NormalMembers, WrongMember, Stands, Term;
    MembersStep(p, data, at, members, acc);
    RegroupMembers(acc, members);
    if after.None? {
      var r := Members(p, data, at, |members|, acc);
      if r.Parsed? {
        var i :| WrongMember(r.value, members[1..], i);
        WrongMemberLater(r.value, members, i);
      }
    }
  }

  lemma WrongMemberLater(values: seq<Member>, members: seq<Member>, i: nat)
    requires members != [] && WrongMember(values, members[1..], i)
    ensures WrongMember(values, members, i + 1)
  {
    hide Shaped, Bindings;
  }

  // ----- Any value -----

  predicate Writable(j: Json)
  {
    WellFormed(j) && Fits(j)
  }

  predicate WritableMember(m: Member)
  {
    |m.key| < TWO_32 && Writable(m.value)
  }

  /** Every value comes out right exactly as far as the walk comes through. */
  lemma {:induction false} ValueAt(p: Platform, data: seq<byte>, at: nat, q: seq<Token>, writer: nat, j: Json)
    requires Writable(j) && Stands(data, at, q, writer) && Occurs(data, writer, Term(j))
    ensures Reads(p, data, at, writer + |Term(j)|, j, Walk(q, Ops(j)))
    decreases j, 0
  {
    hide Decode, Stands, Shaped;
    if j == EMPTY {
      WalkOne(q, Empty);
      ReadEmpty(p, data, at, q, writer);
    } else if q != [] {
      OpsAhead(j, q);
      ReadWrong(p, data, at, q, writer, j);
    } else {
      AtTheWriter(data, at, writer);
      if j.Arr? {
        ArrayAt(p, data, at, j.items);
      } else if j.Obj? && j.members != [] {
        ObjectAt(p, data, at, j.members);
      } else {
        ScalarAt(p, data, at, j);
        WalkOne(q, Read);
        StandsHere(data, at + |Term(j)|);
      }
    }
  }

  lemma AtTheWriter(data: seq<byte>, at: nat, writer: nat)
    requires Stands(data, at, [], writer)
    ensures at == writer
  {
  }

  lemma WhereItStands(data: seq<byte>, at: nat, q: seq<Token>, writer: nat)
    requires Stands(data, at, q, writer)
    ensures |TokenBytes(q)| <= writer && writer - |TokenBytes(q)| == at <= |data|
  {
  }

  lemma {:induction false} ItemsAt(p: Platform, data: seq<byte>, at: nat, q: seq<Token>, writer: nat, items: seq<Json>,
                                   acc: seq<Json>)
    requires forall x :: x in items ==> Writable(x)
    requires Stands(data, at, q, writer) && Occurs(data, writer, ItemTerms(items))
    ensures ReadsItems(p, data, at, writer + |ItemTerms(items)|, items, acc, Walk(q, ItemOps(items)))
    decreases items, 1
  {
    hide Decode, Stands, Shaped, WrongAt, Writable, Occurs, Term, Normal, Ops;
    if items == [] {
      assert acc + [] == acc;
      WhereItStands(data, at, q, writer);
    } else {
      var term, rest := Term(items[0]), ItemTerms(items[1..]);
      OccursSplit(data, writer, term, rest);
      ValueAt(p, data, at, q, writer, items[0]);
      WalkSplit(q, Ops(items[0]), ItemOps(items[1..]));
      var mid := Walk(q, Ops(items[0]));
      if mid.None? {
        WhereItStands(data, at, q, writer);
        ItemIsWrong(p, data, at, writer + |term|, items, acc);
      } else {
        var next := writer + |term| - |TokenBytes(mid.value)|;
        ItemsAt(p, data, next, mid.value, writer + |term|, items[1..], acc + [Normal(items[0])]);
        NextItem(p, data, at, writer + |term|, writer + |term| + |rest|, items, acc, mid.value,
                 Walk(mid.value, ItemOps(items[1..])));
      }
    }
  }

  lemma {:induction false} ArrayAt(p: Platform, data: seq<byte>, at: nat, items: seq<Json>)
    requires items != [] && |items| < TWO_32 && forall x :: x in items ==> Writable(x)
    requires Occurs(data, at, Term(Arr(items)))
    ensures Reads(p, data, at, at + |Term(Arr(items))|, Arr(items), Walk([], Ops(Arr(items))))
    decreases items, 2
  {
    ArrayLayout(data, at, items);
    ArrayWalk(items);
    var body := at + 5 + |ItemTerms(items)|;
    StandsHere(data, at + 5);
    hide Decode, Stands, Shaped, WrongAt, Writable, Walk, Occurs, Term;
    ItemsAt(p, data, at + 5, [], at + 5, items, []);
    var q := Walk([], ItemOps(items));
    if q.None? {
      ArrayIsWrong(p, data, at, items, body);
    } else {
      ArrayEnds(p, data, at, items, q.value, body);
    }
  }

  lemma ArrayLayout(data: seq<byte>, at: nat, items: seq<Json>)
    requires items != [] && |items| < TWO_32 && Occurs(data, at, Term(Arr(items)))
    ensures at + 5 <= |data| && |Term(Arr(items))| == 5 + |ItemTerms(items)| + 1
    ensures Occurs(data, at, [TAG_LIST] + BigEndian(|items|, 4)) && Occurs(data, at + 5, ItemTerms(items))
    ensures Occurs(data, at + 5 + |ItemTerms(items)|, [TAG_NIL])
  {
    hide Term, ItemTerms, Occurs, BigEndian;
    ListTerm(items);
    InThree(data, at, [TAG_LIST] + BigEndian(|items|, 4), ItemTerms(items), [TAG_NIL]);
  }

  lemma InThree(data: seq<byte>, at: nat, a: seq<byte>, b: seq<byte>, c: seq<byte>)
    requires Occurs(data, at, a + (b + c))
    ensures at + |a| <= |data| && |a + (b + c)| == |a| + |b| + |c|
    ensures Occurs(data, at, a) && Occurs(data, at + |a|, b) && Occurs(data, at + |a| + |b|, c)
  {
    var rest := b + c;
    OccursSplit(data, at, a, rest);
    OccursSplit(data, at + |a|, b, c);
  }

  lemma ListTerm(items: seq<Json>)
    requires items != [] && |items| < TWO_32
    ensures Term(Arr(items)) == ([TAG_LIST] + BigEndian(|items|, 4)) + (ItemTerms(items) + [TAG_NIL])
  {
    hide Term, ItemTerms, BigEndian;
    TermParts(items);
    var count := |items|;
    assert count % TWO_32 == count;
    NothingBefore([TAG_LIST] + BigEndian(count, 4));
  }

  lemma TermParts(items: seq<Json>)
    requires items != []
    ensures Term(Arr(items)) == [] + ([TAG_LIST] + BigEndian(|items| % TWO_32, 4)) + (ItemTerms(items) + [TAG_NIL])
  {
    hide ItemTerms, BigEndian, Binary, Atom, IntTerm, MemberTerms;
  }

  lemma NothingBefore(s: seq<byte>)
    ensures [] + s == s
  {
  }

  lemma ArrayWalk(items: seq<Json>)
    requires items != []
    ensures var q := Walk([], ItemOps(items));
            Walk([], Ops(Arr(items))) == if q.None? then None else Step(q.value, Close)
  {
    var ops := ItemOps(items);
    assert ([Read] + (ops + [Close]))[1..] == ops + [Close];
    WalkSplit([], ops, [Close]);
    if Walk([], ops).Some? {
      WalkOne(Walk([], ops).value, Close);
    }
  }

  lemma ArrayIsWrong(p: Platform, data: seq<byte>, at: nat, items: seq<Json>, writer: nat)
    requires |items| < TWO_32 && Occurs(data, at, [TAG_LIST] + BigEndian(|items|, 4)) && at + 5 <= |data|
    requires ReadsItems(p, data, at + 5, writer, items, [], None)
    ensures Reads(p, data, at, writer + 1, Arr(items), None)
  {
    hide Items, Shaped, WrongAt, Occurs;
    HeaderAt(data, at, TAG_LIST, |items|);
    ListResult(p, data, at, |items|);
    var r := Items(p, data, at + 5, |items|, []);
    if r.Parsed? {
      var i :| WrongAt(r.value, [], items, i);
      ItemsShape(r.value, items, i);
      NullIsNotShaped(items);
    }
  }

  lemma ListResult(p: Platform, data: seq<byte>, at: nat, count: nat)
    requires at + 5 <= |data| && data[at] == TAG_LIST && Unsigned(data, at + 1, 4) == Parsed(count, at + 5)
    ensures var r, d := Items(p, data, at + 5, count, []), Decode(p, data, at);
            d.Parsed? ==> r.Parsed? && (d.value == Null || d.value == Arr(r.value))
  {
    hide Items, Unsigned;
  }

  lemma ItemsShape(values: seq<Json>, items: seq<Json>, i: nat)
    requires WrongAt(values, [], items, i)
    ensures !Shaped(Arr(values), Arr(items))
  {
    assert !Shaped(values[i], items[i]);
  }

  lemma NullIsNotShaped(items: seq<Json>)
    ensures !Shaped(Null, Arr(items))
  {
  }

  lemma ArrayEnds(p: Platform, data: seq<byte>, at: nat, items: seq<Json>, q: seq<Token>, writer: nat)
    requires items != [] && |items| < TWO_32 && Occurs(data, at, [TAG_LIST] + BigEndian(|items|, 4)) && at + 5 <= |data|
    requires ReadsItems(p, data, at + 5, writer, items, [], Some(q)) && Occurs(data, writer, [TAG_NIL])
    ensures Reads(p, data, at, writer + 1, Arr(items), Step(q, Close))
  {
    hide Decode, Items, NormalItems, Normal, Shaped, Stands, Occurs, TokenBytes, BigEndian;
    var end := writer - |TokenBytes(q)|;
    assert [] + NormalItems(items) == NormalItems(items);
    OneToken(Nil);
    StandsMore(data, end, q, writer, [Nil]);
    var all := q + [Nil];
    StandsNext(data, end, all, writer + 1);
    TokenAt(p, data, end, all[0]);
    ListEnds(p, data, at, |items|, NormalItems(items), end);
    NormalArray(items);
    if all[0] == Nil {
      WhereItStands(data, end + 1, all[1..], writer + 1);
    } else {
      NullIsNotShaped(items);
    }
  }

  lemma NormalArray(items: seq<Json>)
    ensures Normal(Arr(items)) == Arr(NormalItems(items))
  {
  }

  lemma {:induction false} ObjectAt(p: Platform, data: seq<byte>, at: nat, members: seq<Member>)
    requires members != [] && |members| < TWO_32 && Ascending(members) && forall m :: m in members ==> WritableMember(m)
    requires Occurs(data, at, Term(Obj(members)))
    ensures Reads(p, data, at, at + |Term(Obj(members))|, Obj(members), Walk([], Ops(Obj(members))))
    decreases members, 2
  {
    hide Decode, Stands, Shaped, WrongMember, WritableMember, Walk, Occurs, Term, Due, Ops, MemberOps, MemberTerms, Reads,
         ReadsMembers, Ascending;
    ObjectLayout(data, at, members);
    ObjectWalk(members);
    StandsHere(data, at + 5);
    NothingDue(members);
    MembersAt(p, data, at + 5, [], at + 5, members, []);
    ObjectEnds(p, data, at, members, at + 5 + |MemberTerms(members)|, Walk([], MemberOps(members)));
  }

  lemma ObjectLayout(data: seq<byte>, at: nat, members: seq<Member>)
    requires |members| < TWO_32 && Occurs(data, at, Term(Obj(members)))
    ensures at + 5 <= |data| && |Term(Obj(members))| == 5 + |MemberTerms(members)|
    ensures Occurs(data, at, [TAG_MAP] + BigEndian(|members|, 4)) && Occurs(data, at + 5, MemberTerms(members))
  {
    hide MemberTerms, BigEndian;
    var head, body := [TAG_MAP] + BigEndian(|members|, 4), MemberTerms(members);
    assert Term(Obj(members)) == head + body;
    OccursSplit(data, at, head, body);
  }

  lemma ObjectWalk(members: seq<Member>)
    ensures Walk([], Ops(Obj(members))) == Walk([], MemberOps(members))
  {
    hide MemberOps;
    assert ([Read] + MemberOps(members))[1..] == MemberOps(members);
  }

  lemma NothingDue(members: seq<Member>)
    requires Ascending(members)
    ensures Due([], members)
  {
  }

  lemma ObjectEnds(p: Platform, data: seq<byte>, at: nat, members: seq<Member>, writer: nat, q: Option<seq<Token>>)
    requires members != [] && |members| < TWO_32 && Occurs(data, at, [TAG_MAP] + BigEndian(|members|, 4))
    requires at + 5 <= |data| && ReadsMembers(p, data, at + 5, writer, members, [], q)
    ensures Reads(p, data, at, writer, Obj(members), q)
  {
    hide Members, Occurs, Shaped, WrongMember, Stands, NormalMembers;
    HeaderAt(data, at, TAG_MAP, |members|);
    MapResult(p, data, at, |members|);
    var r := Members(p, data, at + 5, |members|, []);
    assert [] + NormalMembers(members) == NormalMembers(members);
    NormalObject(members);
    if q.None? && r.Parsed? {
      var i :| WrongMember(r.value, members, i);
      MembersShape(r.value, members, i);
    }
  }

  lemma MapResult(p: Platform, data: seq<byte>, at: nat, count: nat)
    requires at + 5 <= |data| && data[at] == TAG_MAP && Unsigned(data, at + 1, 4) == Parsed(count, at + 5)
    ensures var r, d := Members(p, data, at + 5, count, []), Decode(p, data, at);
            if r.Parsed? then d == Parsed(MapValue(r.value), r.next) else d.Thrown?
  {
    hide Members, Unsigned, MapValue;
  }

  lemma NormalObject(members: seq<Member>)
    requires members != []
    ensures Normal(Obj(members)) == Obj(NormalMembers(members)) == MapValue(NormalMembers(members))
  {
  }

  lemma MembersShape(values: seq<Member>, members: seq<Member>, i: nat)
    requires WrongMember(values, members, i)
    ensures !Shaped(MapValue(values), Obj(members))
  {
    hide Bindings;
  }

  lemma {:induction false} MembersAt(p: Platform, data: seq<byte>, at: nat, q: seq<Token>, writer: nat,
                                     members: seq<Member>, acc: seq<Member>)
    requires Due(acc, members) && forall m :: m in members ==> WritableMember(m)
    requires Stands(data, at, q, writer) && Occurs(data, writer, MemberTerms(members))
    ensures ReadsMembers(p, data, at, writer + |MemberTerms(members)|, members, acc, Walk(q, MemberOps(members)))
    decreases members, 1
  {
    hide Decode, Stands, Shaped, WrongMember, Due, Occurs, Binary, Term, Normal, Ops, Writable, Reads, TokenBytes;
    if members == [] {
      assert acc + [] == acc;
      WhereItStands(data, at, q, writer);
    } else if q != [] {
      MembersAhead(members, q);
      KeyIsWrong(p, data, at, q, writer, |members|, acc);
    } else {
      AtTheWriter(data, at, writer);
      MemberLayout(data, at, members);
      var m, rest := members[0], MemberTerms(members[1..]);
      var value, end := at + |Binary(m.key)|, at + |MemberTerm(m)|;
      StandsHere(data, value);
      assert WritableMember(m) by { assert m in members; }
      ValueAt(p, data, value, [], value, m.value);
      MemberWalk(members);
      var mid := Walk([], Ops(m.value));
      if mid.None? {
        MemberIsWrong(p, data, at, end, members, acc);
      } else {
        DueNext(acc, members, Normal(m.value));
        ReadsOn(p, data, value, end, m.value, mid.value);
        MembersAt(p, data, end - |TokenBytes(mid.value)|, mid.value, end, members[1..],
                  acc + [Member(m.key, Normal(m.value))]);
        NextMember(p, data, at, end, end + |rest|, members, acc, mid.value, Walk(mid.value, MemberOps(members[1..])));
      }
    }
  }

  lemma ReadsOn(p: Platform, data: seq<byte>, at: nat, writer: nat, j: Json, q: seq<Token>)
    requires at <= |data| && Reads(p, data, at, writer, j, Some(q))
    ensures |TokenBytes(q)| <= writer && Stands(data, writer - |TokenBytes(q)|, q, writer)
  {
  }

  lemma MembersAhead(members: seq<Member>, q: seq<Token>)
    requires members != [] && q != []
    ensures Walk(q, MemberOps(members)) == None
  {
    assert MemberOps(members)[0] == Read;
  }

  lemma MemberLayout(data: seq<byte>, at: nat, members: seq<Member>)
    requires members != [] && Occurs(data, at, MemberTerms(members))
    ensures var m := members[0];
            && Occurs(data, at, Binary(m.key)) && Occurs(data, at + |Binary(m.key)|, Term(m.value))
            && |MemberTerm(m)| == |Binary(m.key)| + |Term(m.value)|
            && Occurs(data, at + |MemberTerm(m)|, MemberTerms(members[1..]))
  {
    var m := members[0];
    OccursSplit(data, at, MemberTerm(m), MemberTerms(members[1..]));
    OccursSplit(data, at, Binary(m.key), Term(m.value));
  }

  lemma MemberWalk(members: seq<Member>)
    requires members != []
    ensures var q := Walk([], Ops(members[0].value));
            Walk([], MemberOps(members)) == if q.None? then None else Walk(q.value, MemberOps(members[1..]))
  {
    var ops := Ops(members[0].value);
    WalkSplit([], [Read] + ops, MemberOps(members[1..]));
    assert ([Read] + ops)[1..] == ops;
  }
}
