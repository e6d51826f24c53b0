/** The builder: a growing buffer, and the recursion that writes a value into it. */
module EtfBuilder {
  import opened Bytes
  import opened EtfTerm
  import opened EtfRoundTrip

  class EtfBuffer {
    var buf: array<byte>
    var length: nat

    ghost predicate Valid()
      reads this
    {
      length <= buf.Length
    }

    ghost function Contents(): (s: seq<byte>)
      requires Valid()
      reads this, buf
    {
      buf[..length]
    }

    constructor (initial: nat)
      ensures Valid() && fresh(buf) && Contents() == []
    {
      buf := new byte[initial](_ => 0);
      length := 0;
    }

    /** Appends, growing to twice what is needed when the bytes do not fit. */
    method Write(bytes: seq<byte>)
      requires Valid()
      modifies this, buf
      ensures Valid() && (buf == old(buf) || fresh(buf))
      ensures Contents() == old(Contents()) + bytes
    {
      if length + |bytes| > buf.Length {
        var grown := new byte[(length + |bytes|) * 2](_ => 0);
        forall i | 0 <= i < buf.Length {
          grown[i] := buf[i];
        }
        buf := grown;
        assert buf[..length] == old(Contents());
      }
      forall i | 0 <= i < |bytes| {
        buf[length + i] := bytes[i];
      }
      assert buf[..length] == old(Contents());
      length := length + |bytes|;
      assert Contents() == old(Contents()) + bytes;
    }
  }

  datatype Built = Built(bytes: seq<byte>) | Refused(error: EtfError)

  /** Writes the minimal little-endian digits of a big integer one byte at a time. */
  method AppendBigInt(b: EtfBuffer, d: nat)
    requires b.Valid() && 0 < d < TWO_64
    modifies b, b.buf
    ensures b.Valid() && (b.buf == old(b.buf) || fresh(b.buf))
    ensures |Digits(d)| <= 8 && b.Contents() == old(b.Contents()) + ([TAG_SMALL_BIG, |Digits(d)|, 0] + Digits(d))
  {
    PowValues();
    DigitsLength(d, 8);
    var rest, digits: seq<byte> := d, [];
    while rest > 0
      invariant digits + Digits(rest) == Digits(d)
    {
      digits := digits + [rest % 256];
      rest := rest / 256;
    }
    assert digits == Digits(d);
    b.Write([TAG_SMALL_BIG, |digits|, 0] + digits);
  }

  method AppendInt(b: EtfBuffer, number: int)
    requires b.Valid() && -0x8000_0000_0000_0000 <= number < 0x8000_0000_0000_0000
    modifies b, b.buf
    ensures b.Valid() && (b.buf == old(b.buf) || fresh(b.buf))
    ensures b.Contents() == old(b.Contents()) + IntTerm(number)
  {
    if 0 <= number <= 127 {
      b.Write([TAG_SMALL_INT, number]);
    } else if number >= TWO_32 - 2 {
      AppendBigInt(b, number);
    } else {
      b.Write([TAG_INTEGER] + BigEndian(number % TWO_32, 4));
    }
  }

  method AppendBinary(b: EtfBuffer, s: seq<byte>)
    requires b.Valid()
    modifies b, b.buf
    ensures b.Valid() && (b.buf == old(b.buf) || fresh(b.buf))
    ensures b.Contents() == old(b.Contents()) + Binary(s)
  {
    b.Write([TAG_BINARY] + BigEndian(|s| % TWO_32, 4));
    b.Write(s);
  }

  method InnerBuild(j: Json, b: EtfBuffer) returns (check: Check)
    requires b.Valid()
    modifies b, b.buf
    ensures b.Valid() && (b.buf == old(b.buf) || fresh(b.buf))
    ensures check == SizeCheck(j)
    ensures check.Good? ==> b.Contents() == old(b.Contents()) + Term(j)
    decreases j
  {
    check := Good;
    match j
    case Null => b.Write(Atom(ATOM_NIL));
    case Bool(truthy) => b.Write(Atom(if truthy then ATOM_TRUE else ATOM_FALSE));
    case Int(n) => AppendInt(b, ToInt64(n));
    case Float(bits) => b.Write([TAG_NEW_FLOAT] + BigEndian(bits, 8));
    case Str(s) => AppendBinary(b, s);
    case Arr(items) => check := BuildArray(j, b);
    case Obj(members) => check := BuildObject(j, b);
  }

  method BuildArray(j: Json, b: EtfBuffer) returns (check: Check)
    requires j.Arr? && b.Valid()
    modifies b, b.buf
    ensures b.Valid() && (b.buf == old(b.buf) || fresh(b.buf))
    ensures check == SizeCheck(j)
    ensures check.Good? ==> b.Contents() == old(b.Contents()) + Term(j)
    decreases j, 0
  {
    hide Term, SizeCheck, ItemTerms, ItemsCheck;
    var items := j.items;
    ghost var before := b.Contents();
    if |items| == 0 {
      b.Write([TAG_NIL]);
    } else if |items| > TWO_32 - 2 {
      ItemsTooMany(items);
      return Bad(ListTooLarge);
    }
    ArrayTerm(items);
    ghost var head := (if items == [] then [TAG_NIL] else []) + ([TAG_LIST] + BigEndian(|items| % TWO_32, 4));
    b.Write([TAG_LIST] + BigEndian(|items| % TWO_32, 4));
    assert b.Contents() == before + head;
    ItemsFrom(items, 0);
    for i := 0 to |items|
      invariant b.Valid() && (b.buf == old(b.buf) || fresh(b.buf))
      invariant b.Contents() + ItemTerms(items[i..]) == before + head + ItemTerms(items)
      invariant ItemsCheck(items) == ItemsCheck(items[i..])
    {
      ItemsFrom(items, i);
      ghost var prior := b.Contents();
      check := InnerBuild(items[i], b);
      if check.Bad? {
        return;
      }
      Associative(prior, Term(items[i]), ItemTerms(items[i + 1..]));
    }
    ItemsFrom(items, |items|);
    assert b.Contents() + [] == b.Contents();
    Associative(before + head, ItemTerms(items), [TAG_NIL]);
    Associative(before, head, ItemTerms(items) + [TAG_NIL]);
    b.Write([TAG_NIL]);
    check := Good;
  }

  lemma Associative(a: seq<byte>, b: seq<byte>, c: seq<byte>)
    ensures a + b + c == a + (b + c)
  {
  }

  lemma ItemsFrom(items: seq<Json>, i: nat)
    requires i <= |items|
    ensures i == 0 ==> items[i..] == items
    ensures i == |items| ==> ItemTerms(items[i..]) == [] && ItemsCheck(items[i..]) == Good
    ensures i < |items| ==> ItemTerms(items[i..]) == Term(items[i]) + ItemTerms(items[i + 1..])
    ensures i < |items| ==>
              ItemsCheck(items[i..]) == match SizeCheck(items[i]) case Bad(e) => Bad(e) case Good => ItemsCheck(items[i + 1..])
  {
    if i < |items| { assert items[i..][1..] == items[i + 1..]; }
  }

  lemma ItemsTooMany(items: seq<Json>)
    requires |items| > TWO_32 - 2
    ensures SizeCheck(Arr(items)) == Bad(ListTooLarge)
  {
  }

  lemma ArrayTerm(items: seq<Json>)
    ensures Term(Arr(items)) == (if items == [] then [TAG_NIL] else [])
              + ([TAG_LIST] + BigEndian(|items| % TWO_32, 4)) + (ItemTerms(items) + [TAG_NIL])
    ensures |items| <= TWO_32 - 2 ==> SizeCheck(Arr(items)) == ItemsCheck(items)
  {
  }

  method BuildObject(j: Json, b: EtfBuffer) returns (check: Check)
    requires j.Obj? && b.Valid()
    modifies b, b.buf
    ensures b.Valid() && (b.buf == old(b.buf) || fresh(b.buf))
    ensures check == SizeCheck(j)
    ensures check.Good? ==> b.Contents() == old(b.Contents()) + Term(j)
    decreases j, 0
  {
    hide Term, SizeCheck, MemberTerms, MembersCheck;
    var members := j.members;
    ghost var before := b.Contents();
    ObjectTerm(members);
    if |members| > TWO_32 - 2 {
      return Bad(MapTooLarge);
    }
    ghost var head := [TAG_MAP] + BigEndian(|members| % TWO_32, 4);
    b.Write([TAG_MAP] + BigEndian(|members| % TWO_32, 4));
    MembersFrom(members, 0);
    for i := 0 to |members|
      invariant b.Valid() && (b.buf == old(b.buf) || fresh(b.buf))
      invariant b.Contents() + MemberTerms(members[i..]) == before + head + MemberTerms(members)
      invariant MembersCheck(members) == MembersCheck(members[i..])
    {
      MembersFrom(members, i);
      ghost var prior := b.Contents();
      check := BuildMember(members[i], b);
      if check.Bad? {
        return;
      }
      Associative(prior, MemberTerm(members[i]), MemberTerms(members[i + 1..]));
    }
    MembersFrom(members, |members|);
    assert b.Contents() + [] == b.Contents();
    Associative(before, head, MemberTerms(members));
    check := Good;
  }

  lemma MembersFrom(members: seq<Member>, i: nat)
    requires i <= |members|
    ensures i == 0 ==> members[i..] == members
    ensures i == |members| ==> MemberTerms(members[i..]) == [] && MembersCheck(members[i..]) == Good
    ensures i < |members| ==> MemberTerms(members[i..]) == MemberTerm(members[i]) + MemberTerms(members[i + 1..])
    ensures i < |members| ==>
              MembersCheck(members[i..])
              == match SizeCheck(members[i].value) case Bad(e) => Bad(e) case Good => MembersCheck(members[i + 1..])
  {
    if i < |members| { assert members[i..][1..] == members[i + 1..]; }
  }

  method BuildMember(m: Member, b: EtfBuffer) returns (check: Check)
    requires b.Valid()
    modifies b, b.buf
    ensures b.Valid() && (b.buf == old(b.buf) || fresh(b.buf))
    ensures check == SizeCheck(m.value)
    ensures check.Good? ==> b.Contents() == old(b.Contents()) + MemberTerm(m)
    decreases m
  {
    AppendBinary(b, m.key);
    check := InnerBuild(m.value, b);
  }

  lemma ObjectTerm(members: seq<Member>)
    ensures Term(Obj(members)) == ([TAG_MAP] + BigEndian(|members| % TWO_32, 4)) + MemberTerms(members)
    ensures SizeCheck(Obj(members)) == if |members| > TWO_32 - 2 then Bad(MapTooLarge) else MembersCheck(members)
  {
  }

  method Build(j: Json) returns (r: Built)
    ensures r == match SizeCheck(j) case Good => Built(Message(j)) case Bad(e) => Refused(e)
  {
    var pk := new EtfBuffer(1024 * 1024);
    pk.Write([FORMAT_VERSION]);
    var check := InnerBuild(j, pk);
    match check
    case Good => r := Built(pk.buf[..pk.length]);
    case Bad(e) => r := Refused(e);
  }

  /** Values whose sizes fit are never refused. */
  lemma {:induction false} FitsIsBuilt(j: Json)
    requires Fits(j)
    ensures SizeCheck(j) == Good
    decreases j, 0
  {
    match j
    case Arr(items) => ItemsBuilt(items);
    case Obj(members) => MembersBuilt(members);
    case _ =>
  }

  lemma {:induction false} ItemsBuilt(items: seq<Json>)
    requires forall i :: 0 <= i < |items| ==> Fits(items[i])
    ensures ItemsCheck(items) == Good
    decreases items, 1
  {
    if items != [] {
      FitsIsBuilt(items[0]);
      ItemsBuilt(items[1..]);
    }
  }

  lemma {:induction false} MembersBuilt(members: seq<Member>)
    requires forall i :: 0 <= i < |members| ==> Fits(members[i].value)
    ensures MembersCheck(members) == Good
    decreases members, 1
  {
    if members != [] {
      FitsIsBuilt(members[0].value);
      MembersBuilt(members[1..]);
    }
  }
}
