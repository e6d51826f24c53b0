/** Reading back the pieces the builder writes: integers, texts, headers. */
module EtfPieces {
  import opened Bytes
  import opened EtfTerm
  import opened EtfDecode

  lemma UnsignedAt(data: seq<byte>, at: nat, n: nat, width: nat)
    requires n < Pow256(width) && Occurs(data, at, BigEndian(n, width))
    ensures Unsigned(data, at, width) == Parsed(n, at + width)
  {
    BigEndianRoundTrip(n, width);
  }

  lemma ByteAt(data: seq<byte>, at: nat, b: byte)
    requires at < |data| && data[at] == b
    ensures Unsigned(data, at, 1) == Parsed(b, at + 1)
  {
    assert data[at..at + 1] == BigEndian(b, 1);
    PowValues();
    UnsignedAt(data, at, b, 1);
  }

  /** A type tag followed by a four-byte length. */
  lemma HeaderAt(data: seq<byte>, at: nat, tag: byte, n: nat)
    requires n < TWO_32 && Occurs(data, at, [tag] + BigEndian(n, 4))
    ensures at + 5 <= |data| && data[at] == tag && Unsigned(data, at + 1, 4) == Parsed(n, at + 5)
  {
    PowValues();
    OccursSplit(data, at, [tag], BigEndian(n, 4));
    assert data[at..at + 1][0] == tag;
    UnsignedAt(data, at + 1, n, 4);
  }

  lemma BinaryAt(p: Platform, data: seq<byte>, at: nat, s: seq<byte>)
    requires |s| < TWO_32 && Occurs(data, at, Binary(s))
    ensures Decode(p, data, at) == Parsed(Str(s), at + |Binary(s)|)
  {
    hide BigEndian, Special;
    OccursSplit(data, at, [TAG_BINARY] + BigEndian(|s|, 4), s);
    HeaderAt(data, at, TAG_BINARY, |s|);
  }

  lemma AtomAt(p: Platform, data: seq<byte>, at: nat, name: seq<byte>)
    requires |name| < 256 && Occurs(data, at, Atom(name))
    ensures Decode(p, data, at) == Parsed(AtomValue(Text(name)), at + |Atom(name)|)
  {
    OccursSplit(data, at, [TAG_SMALL_ATOM, |name|], name);
    assert data[at..at + 2][0] == TAG_SMALL_ATOM && data[at..at + 2][1] == |name|;
    ByteAt(data, at + 1, |name|);
  }

  lemma SmallBigAt(p: Platform, data: seq<byte>, at: nat, d: seq<byte>)
    requires |d| <= 8 && Occurs(data, at, [TAG_SMALL_BIG, |d|, 0] + d)
    ensures Decode(p, data, at) == Parsed(Str(BigIntText(0, |d|, FromDigits(d))), at + 3 + |d|)
  {
    OccursSplit(data, at, [TAG_SMALL_BIG, |d|, 0], d);
    var h := data[at..at + 3];
    assert h[0] == data[at] && h[1] == data[at + 1] && h[2] == data[at + 2];
    ByteAt(data, at + 1, |d|);
    ByteAt(data, at + 2, 0);
    assert BigInt(data, at + 2, |d|) == Parsed(Str(BigIntText(0, |d|, FromDigits(d))), at + 3 + |d|);
  }

  lemma BigDigits(m: nat)
    requires m < 0x8000_0000_0000_0000
    ensures |Digits(m)| <= 8 && FromDigits(Digits(m)) == m
    ensures |Digits(m)| <= 4 ==> m < TWO_32
  {
    PowValues();
    DigitsLength(m, 8);
    DigitsLength(m, 4);
    DigitsRoundTrip(m);
  }

  lemma PlainBigIntText(digits: nat, m: nat)
    requires digits <= 4 ==> m < TWO_32
    ensures BigIntText(0, digits, m) == Decimal(m)
  {
  }

  lemma BigIntAt(p: Platform, data: seq<byte>, at: nat, m: nat)
    requires TWO_32 - 2 <= m < 0x8000_0000_0000_0000 && Occurs(data, at, IntTerm(m))
    ensures Decode(p, data, at) == Parsed(Str(Decimal(m)), at + |IntTerm(m)|)
  {
    BigDigits(m);
    PlainBigIntText(|Digits(m)|, m);
    SmallBigAt(p, data, at, Digits(m));
  }

  lemma IntAt(p: Platform, data: seq<byte>, at: nat, n: int)
    requires Occurs(data, at, IntTerm(ToInt64(n)))
    ensures Decode(p, data, at) == Parsed(NormalInt(n), at + |IntTerm(ToInt64(n))|)
  {
    var m := ToInt64(n);
    if 0 <= m <= 127 {
      assert data[at..at + 2][0] == TAG_SMALL_INT && data[at..at + 2][1] == m;
      ByteAt(data, at + 1, m);
    } else if m >= TWO_32 - 2 {
      BigIntAt(p, data, at, m);
    } else {
      HeaderAt(data, at, TAG_INTEGER, m % TWO_32);
      Wrap32(m);
    }
  }

  lemma Wrap32(m: int)
    ensures ToInt32(m % TWO_32) == ToInt32(m)
  {
  }

  /** Whatever holds no other values, and the object without members. */
  lemma ScalarAt(p: Platform, data: seq<byte>, at: nat, j: Json)
    requires WellFormed(j) && Fits(j) && !j.Arr? && (j.Obj? ==> j.members == [])
    requires Occurs(data, at, Term(j))
    ensures Decode(p, data, at) == Parsed(Normal(j), at + |Term(j)|)
  {
    match j
    case Null => AtomAt(p, data, at, ATOM_NIL);
    case Bool(b) => AtomAt(p, data, at, if b then ATOM_TRUE else ATOM_FALSE);
    case Int(n) => IntAt(p, data, at, n);
    case Float(bits) =>
      PowValues();
      OccursSplit(data, at, [TAG_NEW_FLOAT], BigEndian(bits, 8));
      assert data[at..at + 1][0] == TAG_NEW_FLOAT;
      UnsignedAt(data, at + 1, bits, 8);
    case Str(s) => BinaryAt(p, data, at, s);
    case Obj(members) =>
      var none: seq<Member> := [];
      var head := [TAG_MAP] + BigEndian(0, 4);
      assert MemberTerms(none) == [] && Term(j) == head + MemberTerms(none) == head;
      HeaderAt(data, at, TAG_MAP, 0);
      assert Members(p, data, at + 5, 0, none) == Parsed(none, at + 5);
  }
}
