/**
 The external term format (ERTS User's Guide, "External Term Format") in plain numbers: what the parser makes of each kind of
 term, whoever wrote it, and the bytes the builder begins each value with.
 */
module EtfGrammar {
  import opened Bytes
  import opened EtfTerm
  import opened EtfDecode
  import opened EtfLimits
  import EtfReading

  // ----- Fields -----

  function Two(data: seq<byte>, at: nat): nat
    requires at + 2 <= |data|
  {
    256 * (data[at] as int) + data[at + 1]
  }

  function Four(data: seq<byte>, at: nat): (n: nat)
    requires at + 4 <= |data|
    ensures n < 4294967296
  {
    16777216 * (data[at] as int) + 65536 * (data[at + 1] as int) + 256 * (data[at + 2] as int) + data[at + 3]
  }

  function Eight(data: seq<byte>, at: nat): nat
    requires at + 8 <= |data|
  {
    Four(data, at) * 4294967296 + Four(data, at + 4)
  }

  lemma OneIs(data: seq<byte>, at: nat)
    ensures Unsigned(data, at, 1) == if at + 1 <= |data| then Parsed(data[at], at + 1) else Thrown(PastEnd)
  {
    if at + 1 <= |data| {
      Shorter(data, at, 1);
      assert data[at..at] == [];
    }
  }

  lemma Shorter(data: seq<byte>, at: nat, width: nat)
    requires width > 0 && at + width <= |data|
    ensures FromBigEndian(data[at..at + width])
         == FromBigEndian(data[at..at + (width - 1)]) * 256 + data[at + width - 1]
  {
    assert data[at..at + width][..width - 1] == data[at..at + (width - 1)];
  }

  lemma TwoIs(data: seq<byte>, at: nat)
    ensures Unsigned(data, at, 2) == if at + 2 <= |data| then Parsed(Two(data, at), at + 2) else Thrown(PastEnd)
  {
    if at + 2 <= |data| {
      Shorter(data, at, 2);
      Shorter(data, at, 1);
      assert data[at..at] == [];
    }
  }

  lemma FourIs(data: seq<byte>, at: nat)
    ensures Unsigned(data, at, 4) == if at + 4 <= |data| then Parsed(Four(data, at), at + 4) else Thrown(PastEnd)
  {
    hide FromBigEndian;
    if at + 4 <= |data| {
      Shorter(data, at, 4);
      Shorter(data, at, 3);
      TwoIs(data, at);
    }
  }

  lemma EightIs(data: seq<byte>, at: nat)
    ensures Unsigned(data, at, 8) == if at + 8 <= |data| then Parsed(Eight(data, at), at + 8) else Thrown(PastEnd)
  {
    hide FromBigEndian;
    if at + 8 <= |data| {
      Shorter(data, at, 8);
      Shorter(data, at, 7);
      Shorter(data, at, 6);
      Shorter(data, at, 5);
      FourIs(data, at);
      hide Unsigned;
    }
  }

  // ----- Numbers -----

  /** SMALL_INTEGER_EXT: one unsigned byte. */
  lemma SmallInteger(p: Platform, data: seq<byte>, at: nat)
    requires at < |data| && data[at] == 97
    ensures Decode(p, data, at) == if at + 2 <= |data| then Parsed(Int(data[at + 1]), at + 2) else Thrown(PastEnd)
  {
    OneIs(data, at + 1);
  }

  /** INTEGER_EXT: four bytes in two's complement. */
  lemma Integer(p: Platform, data: seq<byte>, at: nat)
    requires at < |data| && data[at] == 98
    ensures at + 5 > |data| ==> Decode(p, data, at) == Thrown(PastEnd)
    ensures at + 5 <= |data| ==>
              var n := Four(data, at + 1);
              Decode(p, data, at) == Parsed(Int(if n < 2147483648 then n else n - 4294967296), at + 5)
  {
    FourIs(data, at + 1);
    hide Unsigned, Four;
  }

  /** NEW_FLOAT_EXT: the eight bytes of a double. */
  lemma NewFloat(p: Platform, data: seq<byte>, at: nat)
    requires at < |data| && data[at] == 70
    ensures Decode(p, data, at) == if at + 9 <= |data| then Parsed(Float(Eight(data, at + 1)), at + 9) else Thrown(PastEnd)
  {
    EightIs(data, at + 1);
    hide Unsigned, Eight;
  }

  /** FLOAT_EXT: 31 bytes of text, or null when the text would pass the end. */
  lemma OldFloat(p: Platform, data: seq<byte>, at: nat)
    requires at < |data| && data[at] == 99
    ensures at + 32 > |data| ==> Decode(p, data, at) == Parsed(Null, at + 1)
    ensures at + 32 <= |data| ==>
              var text := p.scan(data[at + 1..at + 32]);
              Decode(p, data, at) == Parsed(if text.Number? then Float(text.bits) else Null, at + 32)
  {
  }

  /** Little-endian digits: each is what dividing by the power of its place leaves. */
  lemma {:induction false} DigitPlaces(s: seq<byte>, i: nat)
    requires i < |s|
    ensures FromDigits(s) / Pow256(i) % 256 == s[i]
  {
    FromDigitsBound(s);
    if i > 0 {
      DigitPlaces(s[1..], i - 1);
      QuotientTwice(FromDigits(s), Pow256(i - 1));
      assert FromDigits(s) / 256 == FromDigits(s[1..]);
    } else {
      assert FromDigits(s) / 1 == FromDigits(s);
    }
  }

  /** What a sign, a count and the digits' value are read as: a negative number beyond 64 bits comes out positive. */
  function BigMeans(sign: nat, value: nat): seq<byte>
  {
    SignedDecimal(if sign == 0 then value
                  else if value <= 9223372036854775808 then -(value as int) else 18446744073709551616 - value)
  }

  /** A sign and so many digits, of which the parser takes eight at most. */
  function BigAt(data: seq<byte>, at: nat, count: nat): Parsed<Json>
  {
    if at + 1 > |data| then Thrown(PastEnd)
    else if count > 8 then Thrown(BigIntTooLarge)
    else if at + 1 + count > |data| then Thrown(PastEnd)
    else Parsed(Str(BigMeans(data[at], FromDigits(data[at + 1..at + 1 + count]))), at + 1 + count)
  }

  lemma BigIs(data: seq<byte>, at: nat, count: nat)
    ensures BigInt(data, at, count) == BigAt(data, at, count)
  {
    OneIs(data, at);
    hide Unsigned;
    if count <= 8 && at + 1 + count <= |data| {
      var value := FromDigits(data[at + 1..at + 1 + count]);
      FromDigitsBound(data[at + 1..at + 1 + count]);
      BigTextIs(data[at], count, value);
    }
    hide BigMeans, BigIntText, FromDigits;
  }

  lemma BigTextIs(sign: nat, digits: nat, value: nat)
    requires digits <= 8 && value < Pow256(digits)
    ensures BigIntText(sign, digits, value) == BigMeans(sign, value)
  {
    BigIntExact(sign, digits, value);
    PowValues();
    PowMonotone(digits, 8);
    if digits <= 4 { PowMonotone(digits, 4); }
    Negated64(value);
    hide Pow256, SignedDecimal, Decimal;
  }

  /** SMALL_BIG_EXT and LARGE_BIG_EXT. */
  lemma BigInteger(p: Platform, data: seq<byte>, at: nat)
    requires at < |data| && (data[at] == 110 || data[at] == 111)
    ensures var start := at + if data[at] == 110 then 2 else 5;
            Decode(p, data, at) == if start > |data| then Thrown(PastEnd)
                                   else BigAt(data, start, if data[at] == 110 then data[at + 1] else Four(data, at + 1))
  {
    OneIs(data, at + 1);
    FourIs(data, at + 1);
    if data[at] == 110 && at + 2 <= |data| { BigIs(data, at + 2, data[at + 1]); }
    if data[at] == 111 && at + 5 <= |data| { BigIs(data, at + 5, Four(data, at + 1)); }
    hide Unsigned, Four, BigAt, BigInt;
  }

  /** Decimal text: digits only, no zero in front of others, a minus in front of a negative number, and its value. */
  lemma {:induction false} DecimalIs(n: nat)
    ensures var s := Decimal(n);
            && (forall i :: 0 <= i < |s| ==> 48 <= s[i] <= 57) && (|s| > 1 ==> s[0] != 48) && DecimalValue(s) == n
    ensures SignedDecimal(n) == Decimal(n) && (n > 0 ==> SignedDecimal(-(n as int)) == [45] + Decimal(n))
  {
    DecimalRoundTrip(n);
    if n >= 10 {
      DecimalIs(n / 10);
    }
  }

  // ----- Texts -----

  function AtomMeans(s: seq<byte>): Json
  {
    if s == [110, 105, 108] || s == [110, 117, 108, 108] then Null
    else if s == [116, 114, 117, 101] then Bool(true)
    else if s == [102, 97, 108, 115, 101] then Bool(false)
    else Str(s)
  }

  /** ATOM_EXT and SMALL_ATOM_EXT: nil, null, true and false mean what they say; a text that would pass the end is null. */
  lemma AtomTerm(p: Platform, data: seq<byte>, at: nat)
    requires at < |data| && (data[at] == 100 || data[at] == 115)
    ensures var start := at + if data[at] == 100 then 3 else 2;
            if start > |data| then Decode(p, data, at) == Thrown(PastEnd)
            else
              var length := if data[at] == 100 then Two(data, at + 1) else data[at + 1];
              Decode(p, data, at) == if start + length > |data| then Parsed(Null, start)
                                     else Parsed(AtomMeans(data[start..start + length]), start + length)
  {
    OneIs(data, at + 1);
    TwoIs(data, at + 1);
    hide Unsigned;
  }

  /** BINARY_EXT: a text, or null when it would pass the end. */
  lemma BinaryTerm(p: Platform, data: seq<byte>, at: nat)
    requires at < |data| && data[at] == 109
    ensures if at + 5 > |data| then Decode(p, data, at) == Thrown(PastEnd)
            else
              var end := at + 5 + Four(data, at + 1);
              Decode(p, data, at) == if end > |data| then Parsed(Null, at + 5) else Parsed(Str(data[at + 5..end]), end)
  {
    FourIs(data, at + 1);
    hide Unsigned, Four;
  }

  lemma {:induction false} SmallIntsAt(s: seq<byte>, i: nat)
    requires i < |s|
    ensures SmallInts(s)[i] == Int(s[i])
  {
    if i < |s| - 1 {
      SmallIntsAt(s[..|s| - 1], i);
    }
  }

  /** STRING_EXT: a list of small integers. */
  lemma StringTerm(p: Platform, data: seq<byte>, at: nat)
    requires at < |data| && data[at] == 107
    ensures var r := Decode(p, data, at);
            if at + 3 > |data| then r == Thrown(PastEnd)
            else
              var length := Two(data, at + 1);
              if at + 3 + length > |data| then r == Thrown(StringListPastEnd)
              else
                && r.Parsed? && r.next == at + 3 + length && r.value.Arr? && |r.value.items| == length
                && forall i :: 0 <= i < length ==> r.value.items[i] == Int(data[at + 3 + i])
  {
    TwoIs(data, at + 1);
    hide Unsigned, Two;
    if at + 3 <= |data| && at + 3 + Two(data, at + 1) <= |data| {
      var s := data[at + 3..at + 3 + Two(data, at + 1)];
      forall i | 0 <= i < |s|
        ensures SmallInts(s)[i] == Int(data[at + 3 + i])
      {
        SmallIntsAt(s, i);
      }
      hide SmallInts;
    }
  }

  // ----- Terms made of terms -----

  /** So many terms in a row. */
  function Elements(p: Platform, data: seq<byte>, at: nat, count: nat): (r: Parsed<seq<Json>>)
    requires at <= |data|
    ensures r.Parsed? ==> at <= r.next <= |data| && |r.value| == count
    decreases count
  {
    if count == 0 then Parsed([], at)
    else
      var (first, a) :- Decode(p, data, at);
      var (others, b) :- Elements(p, data, a, count - 1);
      Parsed([first] + others, b)
  }

  lemma {:induction false} ItemsAreElements(p: Platform, data: seq<byte>, at: nat, count: nat, acc: seq<Json>)
    requires at <= |data|
    ensures var r := Elements(p, data, at, count);
            Items(p, data, at, count, acc) == if r.Parsed? then Parsed(acc + r.value, r.next) else Thrown(r.error)
    decreases count
  {
    hide Decode;
    if count == 0 {
      assert acc + [] == acc;
    } else if Decode(p, data, at).Parsed? {
      var first := Decode(p, data, at);
      ItemsAreElements(p, data, first.next, count - 1, acc + [first.value]);
      var others := Elements(p, data, first.next, count - 1);
      if others.Parsed? {
        assert acc + [first.value] + others.value == acc + ([first.value] + others.value);
      }
    }
  }

  /** SMALL_TUPLE_EXT and LARGE_TUPLE_EXT: an array of their elements. */
  lemma TupleOfTerms(p: Platform, data: seq<byte>, at: nat)
    requires at < |data| && (data[at] == 104 || data[at] == 105)
    ensures var start := at + if data[at] == 104 then 2 else 5;
            if start > |data| then Decode(p, data, at) == Thrown(PastEnd)
            else
              var r := Elements(p, data, start, if data[at] == 104 then data[at + 1] else Four(data, at + 1));
              Decode(p, data, at) == if r.Parsed? then Parsed(Arr(r.value), r.next) else Thrown(r.error)
  {
    var start := at + if data[at] == 104 then 2 else 5;
    OneIs(data, at + 1);
    FourIs(data, at + 1);
    hide Unsigned, Four, Items;
    if start <= |data| {
      var count := if data[at] == 104 then data[at + 1] else Four(data, at + 1);
      ItemsAreElements(p, data, start, count, []);
      NothingBefore(Elements(p, data, start, count));
    }
  }

  lemma NothingBefore(r: Parsed<seq<Json>>)
    ensures r.Parsed? ==> [] + r.value == r.value
  {
  }

  /** NIL_EXT: an empty array. */
  lemma NilTerm(p: Platform, data: seq<byte>, at: nat)
    requires at < |data| && data[at] == 106
    ensures Decode(p, data, at) == Parsed(Arr([]), at + 1)
  {
  }

  /** LIST_EXT: an array of its elements if NIL_EXT follows them, and null otherwise. */
  lemma ListOfTerms(p: Platform, data: seq<byte>, at: nat)
    requires at < |data| && data[at] == 108
    ensures if at + 5 > |data| then Decode(p, data, at) == Thrown(PastEnd)
            else
              var r := Elements(p, data, at + 5, Four(data, at + 1));
              Decode(p, data, at) == if r.Thrown? then Thrown(r.error)
                                     else if r.next == |data| then Thrown(PastEnd)
                                     else Parsed(if data[r.next] == 106 then Arr(r.value) else Null, r.next + 1)
  {
    FourIs(data, at + 1);
    if at + 5 <= |data| {
      var count := Four(data, at + 1);
      var r := Elements(p, data, at + 5, count);
      ItemsAreElements(p, data, at + 5, count, []);
      NothingBefore(r);
      if r.Parsed? { OneIs(data, r.next); }
      hide Unsigned, Four, Items;
    }
  }

  // ----- Maps -----

  /** The text of a key: numbers in decimal, taken as unsigned. */
  function KeyMeans(p: Platform, key: Json, at: nat): (r: Parsed<seq<byte>>)
    ensures r.Parsed? ==> r.next == at
  {
    match key
    case Int(n) => Parsed(Decimal(n % 18446744073709551616), at)
    case Float(bits) => Parsed(Decimal(p.truncate(bits)), at)
    case Str(s) => Parsed(s, at)
    case _ => Thrown(KeyNotText)
  }

  /** So many pairs of a key and a value in a row. */
  function Pairs(p: Platform, data: seq<byte>, at: nat, count: nat): (r: Parsed<seq<Member>>)
    requires at <= |data|
    ensures r.Parsed? ==> at <= r.next <= |data| && |r.value| == count
    decreases count
  {
    if count == 0 then Parsed([], at)
    else
      var (key, a) :- Decode(p, data, at);
      var (name, b) :- KeyMeans(p, key, a);
      var (value, c) :- Decode(p, data, b);
      var (others, d) :- Pairs(p, data, c, count - 1);
      Parsed([Member(name, value)] + others, d)
  }

  /** Of pairs with the same key the first counts. */
  function FirstWins(pairs: seq<Member>): map<seq<byte>, Json>
  {
    if pairs == [] then map[] else FirstWins(pairs[1..])[pairs[0].key := pairs[0].value]
  }

  lemma {:induction false} MembersArePairs(p: Platform, data: seq<byte>, at: nat, count: nat, acc: seq<Member>)
    requires at <= |data| && Ascending(acc)
    ensures var r, m := Pairs(p, data, at, count), Members(p, data, at, count, acc);
            if r.Thrown? then m == Thrown(r.error)
            else m.Parsed? && m.next == r.next && Ascending(m.value)
                 && Bindings(m.value) == FirstWins(r.value) + Bindings(acc)
    decreases count
  {
    hide Decode, Emplace, Bindings, Ascending;
    if count > 0 && Decode(p, data, at).Parsed? {
      var key := Decode(p, data, at);
      var name := KeyMeans(p, key.value, key.next);
      if name.Parsed? && Decode(p, data, key.next).Parsed? {
        var value := Decode(p, data, key.next);
        var more := Emplace(acc, name.value, value.value);
        EmplaceAscending(acc, name.value, value.value);
        EmplaceBinds(acc, name.value, value.value);
        MembersArePairs(p, data, value.next, count - 1, more);
        var others := Pairs(p, data, value.next, count - 1);
        if others.Parsed? {
          var pair := Member(name.value, value.value);
          assert ([pair] + others.value)[1..] == others.value;
          Merged(FirstWins(others.value), Bindings(acc), name.value, value.value);
        }
      }
    }
  }

  lemma Merged(later: map<seq<byte>, Json>, acc: map<seq<byte>, Json>, key: seq<byte>, value: Json)
    ensures later[key := value] + acc == later + if key in acc then acc else acc[key := value]
  {
  }

  /** MAP_EXT: null when it is empty, else an object with its pairs in order of their keys. */
  lemma MapOfTerms(p: Platform, data: seq<byte>, at: nat)
    requires at < |data| && data[at] == 116
    ensures var m := Decode(p, data, at);
            if at + 5 > |data| then m == Thrown(PastEnd)
            else
              var r := Pairs(p, data, at + 5, Four(data, at + 1));
              if r.Thrown? then m == Thrown(r.error)
              else
                && m.Parsed? && m.next == r.next
                && if r.value == [] then m.value == Null
                   else m.value.Obj? && Ascending(m.value.members) && Bindings(m.value.members) == FirstWins(r.value)
  {
    FourIs(data, at + 1);
    if at + 5 <= |data| {
      var count, none := Four(data, at + 1), [];
      MembersArePairs(p, data, at + 5, count, none);
      MapIs(p, data, at, count);
      var r := Pairs(p, data, at + 5, count);
      if r.Parsed? { NothingBound(r.value, Members(p, data, at + 5, count, none).value); }
      hide Unsigned, Four, Members, Decode, Ascending, Pairs, FirstWins, Bindings;
    }
  }

  lemma NothingBound(pairs: seq<Member>, members: seq<Member>)
    ensures FirstWins(pairs) + Bindings([]) == FirstWins(pairs)
    ensures Bindings(members) == FirstWins(pairs) ==> (members == [] <==> pairs == [])
  {
    if members != [] { assert members[0].key in Bindings(members); }
    if pairs != [] { assert pairs[0].key in FirstWins(pairs); }
  }

  lemma MapIs(p: Platform, data: seq<byte>, at: nat, count: nat)
    requires at + 5 <= |data| && data[at] == 116 && Unsigned(data, at + 1, 4) == Parsed(count, at + 5)
    ensures var m := Members(p, data, at + 5, count, []);
            Decode(p, data, at) == if m.Thrown? then Thrown(m.error) else Parsed(MapValue(m.value), m.next)
  {
    hide Unsigned, Members;
  }

  /** Keys are in the order of their unsigned bytes, a beginning before what it begins. */
  lemma {:induction false} KeyOrderIs(a: seq<byte>, b: seq<byte>)
    ensures KeyLess(a, b) <==>
            exists i :: 0 <= i <= |a| && i < |b| && a[..i] == b[..i] && (i == |a| || a[i] < b[i])
  {
    if a != [] && b != [] && a[0] == b[0] {
      KeyOrderIs(a[1..], b[1..]);
      if KeyLess(a, b) {
        var i :| 0 <= i <= |a[1..]| && i < |b[1..]| && a[1..][..i] == b[1..][..i] && (i == |a[1..]| || a[1..][i] < b[1..][i]);
        assert a[..i + 1] == [a[0]] + a[1..][..i] && b[..i + 1] == [b[0]] + b[1..][..i];
      }
      if i :| 0 <= i <= |a| && i < |b| && a[..i] == b[..i] && (i == |a| || a[i] < b[i]) {
        assert i > 0 && a[1..][..i - 1] == a[..i][1..] && b[1..][..i - 1] == b[..i][1..];
      }
    } else if b != [] {
      assert a[..0] == b[..0];
      assert forall i :: 0 < i <= |a| && i < |b| ==> a[..i][0] == a[0] && b[..i][0] == b[0];
    }
  }

  // ----- Terms from other nodes -----

  function SignedFour(data: seq<byte>, at: nat): int
    requires at + 4 <= |data|
  {
    if Four(data, at) < 2147483648 then Four(data, at) else Four(data, at) - 4294967296
  }

  lemma {:induction false} IdsAre(data: seq<byte>, at: nat, count: nat, acc: seq<Json>)
    requires at <= |data|
    ensures var r := Ids(data, at, count, acc);
            if at + 4 * count > |data| then r == Thrown(PastEnd)
            else
              && r.Parsed? && r.next == at + 4 * count && r.value.Arr? && |r.value.items| == |acc| + count
              && r.value.items[..|acc|] == acc
              && forall i :: 0 <= i < count ==> r.value.items[|acc| + i] == Int(SignedFour(data, at + 4 * i))
    decreases count
  {
    FourIs(data, at);
    hide Unsigned, Four;
    if count > 0 && at + 4 <= |data| {
      var id := Int(SignedFour(data, at));
      IdsAre(data, at + 4, count - 1, acc + [id]);
      IdIs(data, at);
      if at + 4 * count <= |data| {
        var items := Ids(data, at + 4, count - 1, acc + [id]).value.items;
        assert items[|acc|] == items[..|acc| + 1][|acc|] == id;
        assert items[..|acc|] == items[..|acc| + 1][..|acc|];
        forall i | 0 <= i < count
          ensures items[|acc| + i] == Int(SignedFour(data, at + 4 * i))
        {
          if i > 0 { assert items[|acc + [id]| + (i - 1)] == Int(SignedFour(data, at + 4 + 4 * (i - 1))); }
        }
      }
    }
  }

  lemma IdIs(data: seq<byte>, at: nat)
    requires at + 4 <= |data|
    ensures ToInt32(Four(data, at)) == SignedFour(data, at)
  {
    hide Four;
  }

  /** The members of an object are these, in order: `creation`, `id`, `node` and for a process `serial`, by their names. */
  lemma RecordKeys()
    ensures KEY_CREATION == [99, 114, 101, 97, 116, 105, 111, 110] && KEY_ID == [105, 100]
    ensures KEY_NODE == [110, 111, 100, 101] && KEY_SERIAL == [115, 101, 114, 105, 97, 108]
    ensures KEY_ARITY == [97, 114, 105, 116, 121] && KEY_FUN == [102, 117, 110] && KEY_MOD == [109, 111, 100]
  {
  }

  function NodeRecord(node: Json, id: Json, creation: Json): Json
  {
    Obj([Member([99, 114, 101, 97, 116, 105, 111, 110], creation), Member([105, 100], id), Member([110, 111, 100, 101], node)])
  }

  /** REFERENCE_EXT and PORT_EXT: a node, four bytes and one; a reference's number is signed and in a list. */
  lemma ReferenceOrPort(p: Platform, data: seq<byte>, at: nat)
    requires at < |data| && (data[at] == 101 || data[at] == 102)
    ensures var r := Decode(p, data, at + 1);
            Decode(p, data, at)
            == if r.Thrown? then Thrown(r.error)
               else if r.next + 5 > |data| then Thrown(PastEnd)
               else Parsed(NodeRecord(r.value,
                                      if data[at] == 101 then Arr([Int(SignedFour(data, r.next))])
                                      else Int(Four(data, r.next)),
                                      Int(data[r.next + 4])), r.next + 5)
  {
    var r := Decode(p, data, at + 1);
    if r.Parsed? {
      FourIs(data, r.next);
      OneIs(data, r.next + 4);
      OneIdIs(data, r.next);
    }
    RecordKeys();
    SpecialIs(p, data, at);
    hide Unsigned, Four, Decode, Ids;
  }

  lemma SpecialIs(p: Platform, data: seq<byte>, at: nat)
    requires at < |data| && data[at] in {101, 102, 103, 113, 114}
    ensures Decode(p, data, at) == Special(p, data, at + 1, data[at])
  {
    hide Special;
  }

  lemma OneIdIs(data: seq<byte>, at: nat)
    requires at <= |data|
    ensures Ids(data, at, 1, []) == if at + 4 > |data| then Thrown(PastEnd)
                                    else Parsed(Arr([Int(SignedFour(data, at))]), at + 4)
  {
    IdsAre(data, at, 1, []);
    if at + 4 <= |data| {
      var items := Ids(data, at, 1, []).value.items;
      assert items[0] == Int(SignedFour(data, at + 4 * 0));
      assert items == [items[0]];
    }
  }

  /** PID_EXT: a node, two numbers of four bytes and one of one. */
  lemma Process(p: Platform, data: seq<byte>, at: nat)
    requires at < |data| && data[at] == 103
    ensures var r := Decode(p, data, at + 1);
            Decode(p, data, at)
            == if r.Thrown? then Thrown(r.error)
               else if r.next + 9 > |data| then Thrown(PastEnd)
               else Parsed(Obj([Member([99, 114, 101, 97, 116, 105, 111, 110], Int(data[r.next + 8])),
                                Member([105, 100], Int(Four(data, r.next))),
                                Member([110, 111, 100, 101], r.value),
                                Member([115, 101, 114, 105, 97, 108], Int(Four(data, r.next + 4)))]), r.next + 9)
  {
    var r := Decode(p, data, at + 1);
    if r.Parsed? {
      FourIs(data, r.next);
      FourIs(data, r.next + 4);
      OneIs(data, r.next + 8);
    }
    RecordKeys();
    SpecialIs(p, data, at);
    hide Unsigned, Four, Decode;
  }

  /** So many numbers of four bytes in two's complement. */
  function Numbers(data: seq<byte>, at: nat, count: nat): seq<Json>
    requires at + 4 * count <= |data|
  {
    seq(count, i requires 0 <= i < count => Int(SignedFour(data, at + 4 * i)))
  }

  lemma IdsAreNumbers(data: seq<byte>, at: nat, count: nat)
    requires at <= |data|
    ensures Ids(data, at, count, []) == if at + 4 * count > |data| then Thrown(PastEnd)
                                        else Parsed(Arr(Numbers(data, at, count)), at + 4 * count)
  {
    hide SignedFour, Ids;
    IdsAre(data, at, count, []);
    if at + 4 * count <= |data| {
      assert Ids(data, at, count, []).value.items == Numbers(data, at, count);
    }
  }

  /** NEW_REFERENCE_EXT: a count of two bytes, a node, one byte and so many numbers. */
  lemma NewReference(p: Platform, data: seq<byte>, at: nat)
    requires at < |data| && data[at] == 114
    ensures var d := Decode(p, data, at);
            if at + 3 > |data| then d == Thrown(PastEnd)
            else
              var r, count := Decode(p, data, at + 3), Two(data, at + 1);
              d == if r.Thrown? then Thrown(r.error)
                   else if r.next + 1 + 4 * count > |data| then Thrown(PastEnd)
                   else Parsed(NodeRecord(r.value, Arr(Numbers(data, r.next + 1, count)), Int(data[r.next])),
                               r.next + 1 + 4 * count)
  {
    hide Decode, Two, Ids, Numbers, NodeRecord;
    NewReferenceIs(p, data, at);
    if at + 3 <= |data| && Decode(p, data, at + 3).Parsed? {
      var next := Decode(p, data, at + 3).next;
      if next + 1 <= |data| {
        IdsAreNumbers(data, next + 1, Two(data, at + 1));
      }
    }
  }

  lemma NewReferenceIs(p: Platform, data: seq<byte>, at: nat)
    requires at < |data| && data[at] == 114
    ensures var d := Decode(p, data, at);
            if at + 3 > |data| then d == Thrown(PastEnd)
            else
              var r := Decode(p, data, at + 3);
              if r.Thrown? then d == Thrown(r.error)
              else if r.next == |data| then d == Thrown(PastEnd)
              else
                var ids := Ids(data, r.next + 1, Two(data, at + 1), []);
                d == if ids.Thrown? then Thrown(ids.error)
                     else Parsed(NodeRecord(r.value, ids.value, Int(data[r.next])), ids.next)
  {
    TwoIs(data, at + 1);
    SpecialIs(p, data, at);
    RecordKeys();
    hide Unsigned, Decode, Ids, Two;
    if at + 3 <= |data| && Decode(p, data, at + 3).Parsed? {
      OneIs(data, Decode(p, data, at + 3).next);
    }
  }

  /** EXPORT_EXT: a module, a function and an arity. */
  lemma Export(p: Platform, data: seq<byte>, at: nat)
    requires at < |data| && data[at] == 113
    ensures var r := Elements(p, data, at + 1, 3);
            Decode(p, data, at)
            == if r.Thrown? then Thrown(r.error)
               else Parsed(Obj([Member([97, 114, 105, 116, 121], r.value[2]), Member([102, 117, 110], r.value[1]),
                                Member([109, 111, 100], r.value[0])]), r.next)
  {
    SpecialIs(p, data, at);
    RecordKeys();
    hide Decode;
    var r := Decode(p, data, at + 1);
    if r.Parsed? {
      var s := Decode(p, data, r.next);
      if s.Parsed? {
        assert Elements(p, data, s.next, 1).Parsed? == Decode(p, data, s.next).Parsed?;
      }
    }
  }

  /** What is left are the tags of no term, of a term for another node, and of a compressed one. */
  lemma OtherTags(p: Platform, data: seq<byte>, at: nat)
    requires at <= |data|
    ensures at == |data| ==> Decode(p, data, at) == Thrown(PastEnd)
    ensures at < |data| && data[at] == 68 ==> Decode(p, data, at) == Thrown(Distribution)
    ensures at < |data| && data[at] !in {68, 70, 80, 97, 98, 99, 100, 101, 102, 103, 104, 105, 106, 107, 108, 109, 110, 111,
                                         113, 114, 115, 116}
            ==> Decode(p, data, at) == Thrown(UnknownType)
  {
  }

  /** The version byte comes first. */
  lemma Version(p: Platform, data: seq<byte>)
    ensures DecodeMessage(p, data) == if data == [] then Thrown(PastEnd)
                                      else if data[0] != 131 then Thrown(BadVersion) else Decode(p, data, 1)
  {
    OneIs(data, 0);
    hide Unsigned;
  }

  // ----- What the builder writes -----

  function FourBytes(n: nat): seq<byte>
    requires n < 4294967296
  {
    [n / 16777216, n / 65536 % 256, n / 256 % 256, n % 256]
  }

  lemma FourBytesAre(n: nat)
    requires n < 4294967296
    ensures BigEndian(n, 4) == FourBytes(n)
  {
    assert BigEndian(n, 4) == BigEndian(n / 256, 3) + [n % 256];
    assert BigEndian(n / 256, 3) == BigEndian(n / 256 / 256, 2) + [n / 256 % 256];
    assert BigEndian(n / 256 / 256, 2) == BigEndian(n / 256 / 256 / 256, 1) + [n / 256 / 256 % 256];
    assert BigEndian(n / 256 / 256 / 256, 1) == [n / 256 / 256 / 256 % 256];
  }

  /** Nothing and the truth values are the atoms nil, true and false. */
  lemma AtomsWritten(b: bool)
    ensures Term(Null) == [115, 3, 110, 105, 108]
    ensures Term(Bool(b)) == if b then [115, 4, 116, 114, 117, 101] else [115, 5, 102, 97, 108, 115, 101]
  {
  }

  /** Integers, from 2^63 on taken as negative: one byte, four bytes, or a big integer without leading zeros. */
  lemma IntWritten(n: int)
    requires -9223372036854775808 <= n < 18446744073709551616
    ensures var m := if n < 9223372036854775808 then n else n - 18446744073709551616;
            if 0 <= m <= 127 then Term(Int(n)) == [97, m]
            else if m < 4294967294 then Term(Int(n)) == [98] + FourBytes(m % 4294967296)
            else
              var d := Digits(m);
              && |d| <= 8 && Term(Int(n)) == [110, |d|, 0] + d
              && FromDigits(d) == m && d[|d| - 1] != 0
  {
    var m := if n < 9223372036854775808 then n else n - 18446744073709551616;
    assert ToInt64(n) == m;
    if m >= 4294967294 {
      DigitsLength(m, 8);
      PowValues();
      DigitsRoundTrip(m);
      NoLeadingZero(m);
    } else if !(0 <= m <= 127) {
      FourBytesAre(m % 4294967296);
    }
  }

  lemma {:induction false} NoLeadingZero(n: nat)
    requires n > 0
    ensures Digits(n) != [] && Digits(n)[|Digits(n)| - 1] != 0
  {
    if n >= 256 { NoLeadingZero(n / 256); }
  }

  /** A double is its eight bytes. */
  lemma FloatWritten(bits: nat)
    requires bits < 18446744073709551616
    ensures var s := Term(Float(bits)); |s| == 9 && s[0] == 70 && Eight(s, 1) == bits
  {
    var s := Term(Float(bits));
    assert s[1..9] == BigEndian(bits, 8);
    PowValues();
    BigEndianRoundTrip(bits, 8);
    EightIs(s, 1);
    hide Eight, BigEndian, FromBigEndian;
  }

  lemma TextWritten(s: seq<byte>)
    requires |s| < 4294967296
    ensures Term(Str(s)) == Binary(s) == [109] + FourBytes(|s|) + s
  {
    FourBytesAre(|s|);
  }

  /** An array's end is written twice when it is empty. */
  lemma ArrayWritten(items: seq<Json>)
    requires |items| < 4294967296
    ensures items == [] ==> Term(Arr(items)) == [106, 108, 0, 0, 0, 0, 106]
    ensures items != [] ==> Term(Arr(items)) == [108] + FourBytes(|items|) + Joined(Terms(items)) + [106]
  {
    hide Term, ItemTerms, BigEndian, FourBytes, Joined, Terms;
    FourBytesAre(|items|);
    if items == [] {
      EmptyWritten();
    } else {
      EtfReading.ListTerm(items);
      ItemTermsAre(items);
      assert ([108] + FourBytes(|items|)) + (Joined(Terms(items)) + [106])
             == [108] + FourBytes(|items|) + Joined(Terms(items)) + [106];
    }
  }

  lemma EmptyWritten()
    ensures Term(Arr([])) == [106, 108, 0, 0, 0, 0, 106]
  {
    FourBytesAre(0);
    var none: seq<Json> := [];
    assert ItemTerms(none) + [106] == [106];
    hide ItemTerms, BigEndian, Binary, IntTerm;
  }

  function Joined(parts: seq<seq<byte>>): seq<byte>
  {
    if parts == [] then [] else parts[0] + Joined(parts[1..])
  }

  function Terms(items: seq<Json>): seq<seq<byte>>
  {
    seq(|items|, i requires 0 <= i < |items| => Term(items[i]))
  }

  lemma {:induction false} ItemTermsAre(items: seq<Json>)
    ensures ItemTerms(items) == Joined(Terms(items))
    decreases |items|
  {
    hide Term;
    if items != [] {
      ItemTermsAre(items[1..]);
      assert Terms(items)[1..] == Terms(items[1..]);
    }
  }

  function Pieces(members: seq<Member>): seq<seq<byte>>
    requires forall m :: m in members ==> |m.key| < 4294967296
  {
    seq(|members|, i requires 0 <= i < |members| =>
      assert members[i] in members; [109] + FourBytes(|members[i].key|) + members[i].key + Term(members[i].value))
  }

  /** An object's members are its keys, as texts, each with its value. */
  lemma ObjectWritten(members: seq<Member>)
    requires |members| < 4294967296 && forall m :: m in members ==> |m.key| < 4294967296
    ensures Term(Obj(members)) == [116] + FourBytes(|members|) + Joined(Pieces(members))
  {
    hide MemberTerms, Pieces, Joined, FourBytes, BigEndian, Binary, IntTerm;
    FourBytesAre(|members|);
    MemberTermsAre(members);
    var count := |members|;
    assert count % TWO_32 == count;
  }

  lemma {:induction false} MemberTermsAre(members: seq<Member>)
    requires forall m :: m in members ==> |m.key| < 4294967296
    ensures MemberTerms(members) == Joined(Pieces(members))
    decreases |members|
  {
    if members != [] {
      var m := members[0];
      assert m in members;
      TextWritten(m.key);
      MemberTermsAre(members[1..]);
      hide Term, Binary;
      assert Pieces(members)[1..] == Pieces(members[1..]);
    }
  }

  /** Every array and object has at most 2^32 - 2 entries. */
  predicate CountsFit(j: Json)
  {
    match j
    case Arr(items) => |items| <= 4294967294 && forall i :: 0 <= i < |items| ==> CountsFit(items[i])
    case Obj(members) => |members| <= 4294967294 && forall i :: 0 <= i < |members| ==> CountsFit(members[i].value)
    case _ => true
  }

  /** Exactly then is it not refused; what is refused is the outermost first. */
  lemma {:induction false} RefusedIff(j: Json)
    ensures SizeCheck(j) == Good <==> CountsFit(j)
    ensures j.Arr? && |j.items| > 4294967294 ==> SizeCheck(j) == Bad(ListTooLarge)
    ensures j.Obj? && |j.members| > 4294967294 ==> SizeCheck(j) == Bad(MapTooLarge)
    decreases j, 0
  {
    match j
    case Arr(items) => ItemsRefusedIff(items);
    case Obj(members) => MembersRefusedIff(members);
    case _ =>
  }

  lemma {:induction false} ItemsRefusedIff(items: seq<Json>)
    ensures ItemsCheck(items) == Good <==> forall i :: 0 <= i < |items| ==> CountsFit(items[i])
    decreases items, 1
  {
    if items != [] {
      RefusedIff(items[0]);
      ItemsRefusedIff(items[1..]);
      hide CountsFit;
      assert forall i :: 0 < i < |items| ==> items[i] == items[1..][i - 1];
    }
  }

  lemma {:induction false} MembersRefusedIff(members: seq<Member>)
    ensures MembersCheck(members) == Good <==> forall i :: 0 <= i < |members| ==> CountsFit(members[i].value)
    decreases members, 1
  {
    if members != [] {
      RefusedIff(members[0].value);
      MembersRefusedIff(members[1..]);
      hide CountsFit;
      assert forall i :: 0 < i < |members| ==> members[i] == members[1..][i - 1];
    }
  }
}
