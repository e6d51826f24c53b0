/** Where the round trip ends: big integers, empty arrays inside arrays, and what any input can decode to. */
module EtfLimits {
  import opened Bytes
  import opened EtfTerm
  import opened EtfDecode
  import opened EtfPieces
  import opened EtfReading
  import opened EtfRoundTrip
  import opened EtfWalk
  import opened Wrappers

  // ----- Big integers -----

  /**
   Big integers of at most eight bytes come back as their signed decimal text, except negative ones
   beyond the 64-bit range, whose sign is lost. For the value 2^63 itself the program negates the smallest 64-bit number,
   which C++ leaves undefined; here, as on common machines, the negation wraps.
   */
  lemma BigIntExact(sign: nat, digits: nat, value: nat)
    requires digits <= 8 && value < Pow256(digits)
    ensures BigIntText(sign, digits, value) == SignedDecimal(if sign == 0 then value else -(value as int))
        <==> sign == 0 || value <= 0x8000_0000_0000_0000
  {
    PowValues();
    PowMonotone(digits, 8);
    if digits <= 4 { PowMonotone(digits, 4); }
    if sign != 0 {
      NegativeExact(digits, value);
    } else {
      SmallModulo(digits, value);
    }
  }

  lemma SmallModulo(digits: nat, value: nat)
    requires digits <= 4 ==> value < TWO_32
    ensures digits <= 4 ==> value % TWO_32 == value
  {
  }

  lemma {:induction false} PowMonotone(a: nat, b: nat)
    requires a <= b
    ensures Pow256(a) <= Pow256(b)
    decreases b
  {
    if a < b { PowMonotone(a, b - 1); }
  }

  lemma Negated64(value: nat)
    requires value < TWO_64
    ensures value <= 0x8000_0000_0000_0000 ==> ToInt64(-ToInt64(value)) == -(value as int)
    ensures value > 0x8000_0000_0000_0000 ==> ToInt64(-ToInt64(value)) == TWO_64 - value
  {
  }

  lemma NegativeExact(digits: nat, value: nat)
    requires value < TWO_64 && (digits <= 4 ==> value < TWO_32)
    ensures NegativeText(digits, value) == SignedDecimal(-(value as int)) <==> value <= 0x8000_0000_0000_0000
  {
    Negated64(value);
    SmallModulo(digits, value);
    if value > 0x8000_0000_0000_0000 {
      FirstDigit(TWO_64 - value);
    }
  }

  lemma {:induction false} FirstDigit(n: nat)
    ensures 48 <= Decimal(n)[0] <= 57
  {
    if n >= 10 { FirstDigit(n / 10); }
  }

  // ----- Empty arrays inside an array or an object -----

  function Empties(k: nat): (r: seq<Json>)
    ensures |r| == k
  {
    if k == 0 then [] else [EMPTY] + Empties(k - 1)
  }

  /** What lies ahead of the reader after some empty arrays. */
  function Alternating(k: nat): (r: seq<Token>)
    ensures |r| == k
  {
    if k == 0 then [] else [if k % 2 == 0 then Nil else NoItems] + Alternating(k - 1)
  }

  lemma {:induction false} AlternatingOn(k: nat)
    ensures Alternating(k) + [Nil, NoItems] == Alternating(k + 2)
  {
    if k == 0 {
      assert Alternating(1) == [NoItems] + Alternating(0);
    } else {
      AlternatingOn(k - 1);
    }
  }

  lemma EmptyOps()
    ensures Ops(EMPTY) == [Empty]
  {
  }

  lemma {:induction false} EmptiesWalk(done: nat, k: nat)
    ensures Walk(Alternating(done), ItemOps(Empties(k))) == Some(Alternating(done + k))
    decreases k
  {
    if k > 0 {
      AlternatingOn(done);
      EmptyOps();
      assert Empties(k)[1..] == Empties(k - 1);
      WalkSplit(Alternating(done), [Empty], ItemOps(Empties(k - 1)));
      WalkOne(Alternating(done), Empty);
      EmptiesWalk(done + 1, k - 1);
    }
  }

  lemma {:induction false} ItemOpsConcat(a: seq<Json>, b: seq<Json>)
    ensures ItemOps(a + b) == ItemOps(a) + ItemOps(b)
    decreases |a|
  {
    if a == [] {
      assert a + b == b;
    } else {
      assert (a + b)[1..] == a[1..] + b;
      ItemOpsConcat(a[1..], b);
    }
  }

  function LeadingEmpties(items: seq<Json>): (k: nat)
    ensures k <= |items|
    ensures Empties(k) == items[..k]
    ensures k < |items| ==> items[k] != EMPTY
    ensures k == |items| <==> items == Empties(|items|)
  {
    if items == [] || items[0] != EMPTY then
      assert items == [] || Empties(|items|)[0] == EMPTY;
      0
    else
      var k := LeadingEmpties(items[1..]);
      assert items == [EMPTY] + items[1..];
      1 + k
  }

  lemma {:induction false} OtherIsRead(items: seq<Json>, q: seq<Token>)
    requires items != [] && items[0] != EMPTY && q != []
    ensures Walk(q, ItemOps(items)) == None
  {
    OpsAhead(items[0], q);
    WalkSplit(q, Ops(items[0]), ItemOps(items[1..]));
  }

  /** From the first empty array on there may be nothing else. */
  lemma {:induction false} RestWalk(rest: seq<Json>)
    requires rest != [] && rest[0] == EMPTY
    ensures rest == Empties(|rest|) ==> Walk([], ItemOps(rest)) == Some(Alternating(|rest|))
    ensures rest != Empties(|rest|) ==> Walk([], ItemOps(rest)) == None
  {
    var k := LeadingEmpties(rest);
    EmptiesWalk(0, k);
    if k < |rest| {
      var first, later := rest[..k], rest[k..];
      assert rest == first + later;
      ItemOpsConcat(first, later);
      WalkSplit([], ItemOps(first), ItemOps(later));
      OtherIsRead(later, Alternating(k));
    } else {
      assert rest[..k] == rest;
    }
  }

  lemma {:induction false} ArrayOps(clean: seq<Json>, rest: seq<Json>)
    requires rest != [] && forall x :: x in clean ==> NoEmptyArray(x)
    ensures Walk([], Ops(Arr(clean + rest))) == Walk([], ItemOps(rest) + [Close])
  {
    var items := clean + rest;
    assert items != [];
    ItemOpsConcat(clean, rest);
    CleanItemOps(clean);
    WalkClean(ItemOps(clean));
    ArrayWalk(items);
    WalkSplit([], ItemOps(clean), ItemOps(rest));
    WalkSplit([], ItemOps(rest), [Close]);
    if Walk([], ItemOps(rest)).Some? {
      WalkOne(Walk([], ItemOps(rest)).value, Close);
    }
  }

  /**
   An array whose elements are clean values up to a first empty array comes back intact exactly when it holds nothing
   but empty arrays from there on, and an even number of them.
   */
  lemma {:induction false} ArrayWithEmpties(p: Platform, clean: seq<Json>, rest: seq<Json>)
    requires |clean| + |rest| < TWO_32 - 1
    requires forall x :: x in clean ==> WellFormed(x) && Fits(x) && NoEmptyArray(x)
    requires rest != [] && rest[0] == EMPTY
    requires forall x :: x in rest ==> WellFormed(x) && Fits(x)
    ensures var r := DecodeMessage(p, Message(Arr(clean + rest)));
            r.Parsed? && r.value == Normal(Arr(clean + rest)) <==> rest == Empties(|rest|) && |rest| % 2 == 0
  {
    var j := Arr(clean + rest);
    LossyRoundTrip(p, j);
    hide Message, DecodeMessage, Normal, Survives, Ops, ItemOps, Walk, WellFormed, Fits;
    SurvivesIsWalk(j);
    ArrayOps(clean, rest);
    RestWalk(rest);
    WalkSplit([], ItemOps(rest), [Close]);
    if rest == Empties(|rest|) {
      WalkOne(Alternating(|rest|), Close);
      assert Alternating(|rest|)[0] == if |rest| % 2 == 0 then Nil else NoItems;
    }
  }

  lemma {:induction false} MemberOpsConcat(a: seq<Member>, b: seq<Member>)
    ensures MemberOps(a + b) == MemberOps(a) + MemberOps(b)
    decreases |a|
  {
    if a == [] {
      assert a + b == b;
    } else {
      assert (a + b)[1..] == a[1..] + b;
      MemberOpsConcat(a[1..], b);
    }
  }

  /** An object whose first empty array is a member of its own comes back intact exactly when that is its last member. */
  lemma ObjectWithEmpty(p: Platform, clean: seq<Member>, key: seq<byte>, later: seq<Member>)
    requires var j := Obj(clean + ([Member(key, EMPTY)] + later)); WellFormed(j) && Fits(j)
    requires forall m :: m in clean ==> NoEmptyArray(m.value)
    ensures var j := Obj(clean + ([Member(key, EMPTY)] + later));
            var r := DecodeMessage(p, Message(j));
            r.Parsed? && r.value == Normal(j) <==> later == []
  {
    var rest := [Member(key, EMPTY)] + later;
    var j := Obj(clean + rest);
    LossyRoundTrip(p, j);
    SurvivesIsWalk(j);
    ObjectWalk(clean + rest);
    MemberOpsConcat(clean, rest);
    CleanMemberOps(clean);
    WalkClean(MemberOps(clean));
    WalkSplit([], MemberOps(clean), MemberOps(rest));
    LaterWalk(key, later);
  }

  lemma LaterWalk(key: seq<byte>, later: seq<Member>)
    ensures Walk([], MemberOps([Member(key, EMPTY)] + later)).Some? <==> later == []
  {
    var rest := [Member(key, EMPTY)] + later;
    assert rest[1..] == later;
    MemberWalk(rest);
    EmptyOps();
    WalkOne([], Empty);
    StepFirst();
    if later != [] {
      MembersAhead(later, [NoItems]);
    }
  }

  /** An even number of empty arrays in an inner array does not help there; one more after it does. */
  lemma InnerPair()
    ensures !Survives(Arr([Arr([EMPTY, EMPTY])]))
    ensures Survives(Arr([Arr([EMPTY, EMPTY]), EMPTY]))
  {
    var inner := Arr([EMPTY, EMPTY]);
    var none: seq<Json> := [];
    PairWalk();
    SurvivesIsWalk(Arr([inner]));
    SurvivesIsWalk(Arr([inner, EMPTY]));
    hide Walk, Ops, Survives, Step;
    assert [inner, EMPTY] == [inner] + [EMPTY];
    ItemOpsConcat([inner], [EMPTY]);
    SingleOps(inner);
    SingleOps(EMPTY);
    EmptyOps();
    WalkSplit([], Ops(inner), [Empty]);
    WalkOne([NoItems, Nil], Empty);
    ArrayWalk([inner]);
    ArrayWalk([inner, EMPTY]);
    PairSteps();
  }

  lemma SingleOps(j: Json)
    ensures ItemOps([j]) == Ops(j)
  {
    assert [j][1..] == [];
    assert ItemOps([j]) == Ops(j) + ItemOps([]);
  }

  lemma PairSteps()
    ensures Step([NoItems, Nil], Close) == None
    ensures Step([NoItems, Nil], Empty) == Some([Nil, Nil, NoItems])
    ensures Step([Nil, Nil, NoItems], Close).Some?
    ensures Step([Nil, NoItems], Close) == Some([NoItems, Nil])
  {
    assert ([NoItems, Nil] + [Nil, NoItems])[1..] == [Nil, Nil, NoItems];
    assert ([Nil, NoItems] + [Nil])[1..] == [NoItems, Nil];
  }

  lemma PairWalk()
    ensures Walk([], Ops(Arr([EMPTY, EMPTY]))) == Some([NoItems, Nil])
  {
    var pair: seq<Json>, none: seq<Json> := [EMPTY, EMPTY], [];
    assert Empties(0) == none && Empties(1) == [EMPTY] + Empties(0) == [EMPTY];
    assert Empties(2) == [EMPTY] + Empties(1) == pair;
    EmptiesWalk(0, 2);
    ArrayWalk(pair);
    assert Alternating(1) == [NoItems] + Alternating(0) == [NoItems];
    assert Alternating(2) == [Nil] + Alternating(1) == [Nil, NoItems];
    PairSteps();
  }

  /** The smallest case: an array holding one empty array comes back as null. */
  lemma NestedEmptyIsLost(p: Platform)
    ensures DecodeMessage(p, Message(Arr([Arr([])]))) == Parsed(Null, 8)
  {
    hide Decode, Items, Occurs, Stands;
    var data, none: seq<Json> := Message(Arr([EMPTY])), [];
    MessageStart(p, data);
    LostLayout(data);
    StandsHere(data, 6);
    ReadEmpty(p, data, 6, [], 6);
    StepFirst();
    StandsNext(data, 7, [NoItems], 13);
    TokenAt(p, data, 7, NoItems);
    ItemsStep(p, data, 6, 1, none);
    assert none + [EMPTY] == [EMPTY];
    NoMoreItems(p, data, 7, [EMPTY]);
    ListEnds(p, data, 1, 1, [EMPTY], 7);
  }

  lemma NoMoreItems(p: Platform, data: seq<byte>, at: nat, acc: seq<Json>)
    requires at <= |data|
    ensures Items(p, data, at, 0, acc) == Parsed(acc, at)
  {
  }

  lemma LostLayout(data: seq<byte>)
    requires data == Message(Arr([EMPTY]))
    ensures 6 <= |data| && Occurs(data, 1, [TAG_LIST] + BigEndian(1, 4)) && Occurs(data, 6, Term(EMPTY))
    ensures |Term(EMPTY)| == |TokenBytes([NoItems])| + 1 == 7
  {
    hide Term, ItemTerms, Normal, Decode;
    assert Occurs(data, 1, Term(Arr([EMPTY])));
    ArrayLayout(data, 1, [EMPTY]);
    SingleTerm(EMPTY);
    EmptyTerm();
    OneToken(NoItems);
    OneToken(Nil);
    TokenBytesConcat([Nil], [NoItems]);
    assert [Nil] + [NoItems] == [Nil, NoItems];
  }

  lemma SingleTerm(j: Json)
    ensures ItemTerms([j]) == Term(j)
  {
    assert [j][1..] == [];
    assert ItemTerms([j]) == Term(j) + ItemTerms([]);
  }

  // ----- Whatever the bytes -----

  ghost predicate SoundPlatform(p: Platform)
  {
    forall s :: p.scan(s).Number? ==> p.scan(s).bits < TWO_64
  }

  /** Everything the parser returns is a well-formed value, whose objects have distinct keys in order. */
  lemma {:induction false} DecodeWellFormed(p: Platform, data: seq<byte>, at: nat)
    requires at <= |data| && SoundPlatform(p)
    ensures var r := Decode(p, data, at); r.Parsed? ==> WellFormed(r.value)
    decreases |data| - at, 0
  {
    hide Leaf, Special, Items, Members;
    if at < |data| && Decode(p, data, at).Parsed? {
      var tag, a := data[at], at + 1;
      if IsLeaf(tag) {
        LeafWellFormed(p, data, a, tag);
      } else if tag == TAG_SMALL_TUPLE {
        ItemsWellFormed(p, data, a + 1, Unsigned(data, a, 1).value, []);
      } else if tag == TAG_LARGE_TUPLE {
        ItemsWellFormed(p, data, a + 4, Unsigned(data, a, 4).value, []);
      } else if tag == TAG_LIST {
        ItemsWellFormed(p, data, a + 4, Unsigned(data, a, 4).value, []);
      } else if tag == TAG_MAP {
        MembersWellFormed(p, data, a + 4, Unsigned(data, a, 4).value, []);
      } else {
        SpecialWellFormed(p, data, a, tag);
      }
    }
  }

  lemma LeafWellFormed(p: Platform, data: seq<byte>, at: nat, tag: byte)
    requires at <= |data| && IsLeaf(tag) && SoundPlatform(p)
    ensures var r := Leaf(p, data, at, tag); r.Parsed? ==> WellFormed(r.value)
  {
    var r := Leaf(p, data, at, tag);
    if r.Parsed? {
      if tag == TAG_SMALL_INT {
        NumberBound(data, at, 1);
      } else if tag == TAG_NEW_FLOAT {
        NumberBound(data, at, 8);
      } else if tag == TAG_STRING {
        SmallIntsWellFormed(data[at + 2..r.next]);
      }
    }
  }

  lemma NumberBound(data: seq<byte>, at: nat, width: nat)
    requires width in {1, 4, 8}
    ensures var r := Unsigned(data, at, width); r.Parsed? ==> r.value < TWO_64 && (width < 8 ==> r.value < TWO_32)
  {
    PowValues();
    if at + width <= |data| {
      FromBigEndianBound(data[at..at + width]);
    }
  }

  lemma {:induction false} SmallIntsWellFormed(s: seq<byte>)
    ensures forall i :: 0 <= i < |s| ==> WellFormed(SmallInts(s)[i])
  {
    if s != [] {
      SmallIntsWellFormed(s[..|s| - 1]);
    }
  }

  lemma {:induction false} IdsWellFormed(data: seq<byte>, at: nat, count: nat, acc: seq<Json>)
    requires at <= |data| && WellFormed(Arr(acc))
    ensures var r := Ids(data, at, count, acc); r.Parsed? ==> WellFormed(r.value)
    decreases count
  {
    if count > 0 && Unsigned(data, at, 4).Parsed? {
      var id := Unsigned(data, at, 4).value;
      IdsWellFormed(data, at + 4, count - 1, acc + [Int(ToInt32(id))]);
    }
  }

  lemma {:induction false} ItemsWellFormed(p: Platform, data: seq<byte>, at: nat, count: nat, acc: seq<Json>)
    requires at <= |data| && WellFormed(Arr(acc))
    requires SoundPlatform(p)
    ensures var r := Items(p, data, at, count, acc); r.Parsed? ==> WellFormed(Arr(r.value))
    decreases |data| - at, 1
  {
    if count > 0 && Decode(p, data, at).Parsed? {
      var r := Decode(p, data, at);
      DecodeWellFormed(p, data, at);
      ItemsWellFormed(p, data, r.next, count - 1, acc + [r.value]);
    }
  }

  lemma EmplaceWellFormed(members: seq<Member>, key: seq<byte>, value: Json)
    requires WellFormed(Obj(members)) && WellFormed(value)
    ensures WellFormed(Obj(Emplace(members, key, value)))
  {
    EmplaceAscending(members, key, value);
    var r := Emplace(members, key, value);
    forall i | 0 <= i < |r| ensures WellFormed(r[i].value) {
      assert r[i] in r;
    }
  }

  lemma {:induction false} MembersWellFormed(p: Platform, data: seq<byte>, at: nat, count: nat, acc: seq<Member>)
    requires at <= |data| && WellFormed(Obj(acc))
    requires SoundPlatform(p)
    ensures var r := Members(p, data, at, count, acc); r.Parsed? ==> WellFormed(Obj(r.value))
    decreases |data| - at, 1
  {
    hide Decode, Emplace, KeyText, WellFormed;
    if count > 0 && Members(p, data, at, count, acc).Parsed? {
      var key := Decode(p, data, at);
      var name := KeyText(p, key.value, key.next);
      var value := Decode(p, data, key.next);
      DecodeWellFormed(p, data, key.next);
      EmplaceWellFormed(acc, name.value, value.value);
      MembersWellFormed(p, data, value.next, count - 1, Emplace(acc, name.value, value.value));
    }
  }

  lemma SpecialKeys()
    ensures KeyLess(KEY_CREATION, KEY_ID) && KeyLess(KEY_ID, KEY_NODE) && KeyLess(KEY_NODE, KEY_SERIAL)
    ensures KeyLess(KEY_CREATION, KEY_NODE) && KeyLess(KEY_CREATION, KEY_SERIAL) && KeyLess(KEY_ID, KEY_SERIAL)
    ensures KeyLess(KEY_ARITY, KEY_FUN) && KeyLess(KEY_FUN, KEY_MOD) && KeyLess(KEY_ARITY, KEY_MOD)
  {
  }

  lemma TripleWellFormed(a: Json, b: Json, c: Json)
    requires WellFormed(a) && WellFormed(b) && WellFormed(c)
    ensures WellFormed(Obj([Member(KEY_CREATION, a), Member(KEY_ID, b), Member(KEY_NODE, c)]))
    ensures WellFormed(Obj([Member(KEY_ARITY, a), Member(KEY_FUN, b), Member(KEY_MOD, c)]))
  {
    SpecialKeys();
  }

  lemma QuadWellFormed(a: Json, b: Json, c: Json, d: Json)
    requires WellFormed(a) && WellFormed(b) && WellFormed(c) && WellFormed(d)
    ensures WellFormed(Obj([Member(KEY_CREATION, a), Member(KEY_ID, b), Member(KEY_NODE, c), Member(KEY_SERIAL, d)]))
  {
    SpecialKeys();
  }

  lemma {:induction false} SpecialWellFormed(p: Platform, data: seq<byte>, at: nat, tag: byte)
    requires at <= |data| && SoundPlatform(p)
    ensures var r := Special(p, data, at, tag); r.Parsed? ==> WellFormed(r.value)
    decreases |data| - at, 2
  {
    var r := Special(p, data, at, tag);
    if r.Parsed? {
      var a := if tag == TAG_NEW_REFERENCE then at + 2 else at;
      var node := Decode(p, data, a);
      DecodeWellFormed(p, data, a);
      if tag == TAG_EXPORT {
        var fun := Decode(p, data, node.next);
        DecodeWellFormed(p, data, node.next);
        DecodeWellFormed(p, data, fun.next);
        TripleWellFormed(Decode(p, data, fun.next).value, fun.value, node.value);
      } else {
        NodeRecordWellFormed(p, data, at, tag);
      }
    }
  }

  lemma NodeRecordWellFormed(p: Platform, data: seq<byte>, at: nat, tag: byte)
    requires at <= |data| && tag != TAG_EXPORT && Special(p, data, at, tag).Parsed?
    requires var node := Decode(p, data, if tag == TAG_NEW_REFERENCE then at + 2 else at);
             node.Parsed? && WellFormed(node.value)
    ensures WellFormed(Special(p, data, at, tag).value)
  {
    hide Decode;
    var node := Decode(p, data, if tag == TAG_NEW_REFERENCE then at + 2 else at);
    var v := Special(p, data, at, tag).value;
    if tag == TAG_PID {
      NumberBound(data, node.next, 4);
      NumberBound(data, node.next + 4, 4);
      NumberBound(data, node.next + 8, 1);
      QuadWellFormed(v.members[0].value, v.members[1].value, node.value, v.members[3].value);
    } else {
      RecordFields(p, data, at, tag, node);
      TripleWellFormed(v.members[0].value, v.members[1].value, node.value);
    }
  }

  lemma RecordFields(p: Platform, data: seq<byte>, at: nat, tag: byte, node: Parsed<Json>)
    requires at <= |data| && tag != TAG_EXPORT && tag != TAG_PID && Special(p, data, at, tag).Parsed?
    requires node == Decode(p, data, if tag == TAG_NEW_REFERENCE then at + 2 else at)
    ensures var v := Special(p, data, at, tag).value; WellFormed(v.members[0].value) && WellFormed(v.members[1].value)
  {
    hide Decode;
    if tag == TAG_REFERENCE {
      IdsWellFormed(data, node.next, 1, []);
      NumberBound(data, node.next + 4, 1);
    } else if tag == TAG_NEW_REFERENCE {
      IdsWellFormed(data, node.next + 1, Unsigned(data, at, 2).value, []);
      NumberBound(data, node.next, 1);
    } else {
      NumberBound(data, node.next, 4);
      NumberBound(data, node.next + 4, 1);
    }
  }
}
