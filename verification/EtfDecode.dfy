/** The grammar the parser accepts, as functions from a position in the data to a value and the next position. */
module EtfDecode {
  import opened Bytes
  import opened EtfTerm

  /** The two conversions the parser leaves to the C library. */
  datatype Platform = Platform(
    scan: seq<byte> -> Scanned,      // a textual double, to its bit pattern
    truncate: nat -> nat             // a double's bit pattern, to an unsigned 64-bit integer
  )

  datatype Scanned = Number(bits: nat) | NotANumber

  datatype Parsed<+T> = Parsed(value: T, next: nat) | Thrown(error: EtfError) {
    predicate IsFailure() { Thrown? }
    function PropagateFailure<U>(): Parsed<U>
      requires Thrown?
    {
      Thrown(error)
    }
    function Extract(): (T, nat)
      requires Parsed?
    {
      (value, next)
    }
  }

  // ----- Fixed-size pieces -----

  function Unsigned(data: seq<byte>, at: nat, width: nat): (r: Parsed<nat>)
    ensures r.Parsed? <==> at + width <= |data|
    ensures r.Parsed? ==> r.next == at + width
  {
    if at + width > |data| then Thrown(PastEnd) else Parsed(FromBigEndian(data[at..at + width]), at + width)
  }

  datatype Text = Text(s: seq<byte>) | NoText

  /** A run of bytes; when it would pass the end there is none, and the position stays. */
  function Run(data: seq<byte>, at: nat, length: nat): (r: (Text, nat))
    ensures at <= |data| ==> at <= r.1 <= |data|
  {
    if at + length > |data| then (NoText, at) else (Text(data[at..at + length]), at + length)
  }

  function StringValue(text: Text): Json
  {
    match text case NoText => Null case Text(s) => Str(s)
  }

  function AtomValue(text: Text): Json
  {
    match text
    case NoText => Null
    case Text(s) =>
      if s == ATOM_NULL || s == ATOM_NIL then Null
      else if s == ATOM_TRUE then Bool(true)
      else if s == ATOM_FALSE then Bool(false)
      else Str(s)
  }

  /** A length field of the given width, and then that many bytes. */
  function Counted(data: seq<byte>, at: nat, width: nat, atom: bool): (r: Parsed<Json>)
    ensures r.Parsed? ==> at + width <= r.next <= |data|
    ensures r.Parsed? ==> Nodes(r.value) == 1
  {
    var (length, a) :- Unsigned(data, at, width);
    var (text, b) := Run(data, a, length);
    Parsed(if atom then AtomValue(text) else StringValue(text), b)
  }

  function TextFloat(p: Platform, data: seq<byte>, at: nat): (r: Parsed<Json>)
    requires at <= |data|
    ensures r.Parsed? ==> at <= r.next <= |data|
    ensures r.Parsed? ==> Nodes(r.value) == 1
  {
    match Run(data, at, 31)
    case (NoText, a) => Parsed(Null, a)
    case (Text(s), a) => Parsed(match p.scan(s) case Number(bits) => Float(bits) case NotANumber => Null, a)
  }

  function SmallInts(s: seq<byte>): (r: seq<Json>)
    ensures |r| == |s|
  {
    if s == [] then [] else SmallInts(s[..|s| - 1]) + [Int(s[|s| - 1])]
  }

  function StringAsList(data: seq<byte>, at: nat): (r: Parsed<Json>)
    ensures r.Parsed? ==> at + 2 <= r.next <= |data|
  {
    var (length, a) :- Unsigned(data, at, 2);
    if a + length > |data| then Thrown(StringListPastEnd)
    else Parsed(Arr(SmallInts(data[a..a + length])), a + length)
  }

  /** The decimal text of a big integer, with the narrowings the parser applies. */
  function BigIntText(sign: nat, digits: nat, value: nat): seq<byte>
  {
    if sign == 0 then Decimal(if digits <= 4 then value % TWO_32 else value)
    else NegativeText(digits, value)
  }

  function NegativeText(digits: nat, value: nat): seq<byte>
  {
    if digits <= 4 && value % TWO_32 < 0x8000_0000 then SignedDecimal(-(value as int))
    else SignedDecimal(ToInt64(-ToInt64(value)))
  }

  function BigInt(data: seq<byte>, at: nat, digits: nat): (r: Parsed<Json>)
    ensures r.Parsed? ==> r.next == at + 1 + digits <= |data|
    ensures r.Parsed? ==> Nodes(r.value) == 1
  {
    var (sign, a) :- Unsigned(data, at, 1);
    if digits > 8 then Thrown(BigIntTooLarge)
    else if a + digits > |data| then Thrown(PastEnd)
    else Parsed(Str(BigIntText(sign, digits, FromDigits(data[a..a + digits]))), a + digits)
  }

  function CountedBigInt(data: seq<byte>, at: nat, width: nat): (r: Parsed<Json>)
    ensures r.Parsed? ==> at + width < r.next <= |data|
    ensures r.Parsed? ==> Nodes(r.value) == 1
  {
    var (digits, a) :- Unsigned(data, at, width);
    BigInt(data, a, digits)
  }

  /** `count` four-byte identifiers, read as signed numbers. */
  function Ids(data: seq<byte>, at: nat, count: nat, acc: seq<Json>): (r: Parsed<Json>)
    requires at <= |data|
    ensures r.Parsed? ==> r.next == at + 4 * count <= |data|
    ensures r.Parsed? ==> r.value.Arr? && |r.value.items| == |acc| + count
    decreases count
  {
    if count == 0 then Parsed(Arr(acc), at)
    else
      var (id, a) :- Unsigned(data, at, 4);
      Ids(data, a, count - 1, acc + [Int(ToInt32(id))])
  }

  /** The text a decoded value stands for as a map key. */
  function KeyText(p: Platform, key: Json, at: nat): (r: Parsed<seq<byte>>)
    ensures r.Parsed? ==> r.next == at
  {
    match key
    case Int(n) => Parsed(Decimal(n % TWO_64), at)
    case Float(bits) => Parsed(Decimal(p.truncate(bits)), at)
    case Str(s) => Parsed(s, at)
    case _ => Thrown(KeyNotText)
  }

  const KEY_ARITY: seq<byte> := [97, 114, 105, 116, 121]
  const KEY_CREATION: seq<byte> := [99, 114, 101, 97, 116, 105, 111, 110]
  const KEY_FUN: seq<byte> := [102, 117, 110]
  const KEY_ID: seq<byte> := [105, 100]
  const KEY_MOD: seq<byte> := [109, 111, 100]
  const KEY_NODE: seq<byte> := [110, 111, 100, 101]
  const KEY_SERIAL: seq<byte> := [115, 101, 114, 105, 97, 108]

  // ----- Terms -----

  predicate IsLeaf(tag: byte)
  {
    tag in {TAG_SMALL_INT, TAG_INTEGER, TAG_FLOAT, TAG_NEW_FLOAT, TAG_ATOM, TAG_SMALL_ATOM, TAG_NIL, TAG_STRING,
            TAG_BINARY, TAG_SMALL_BIG, TAG_LARGE_BIG}
  }

  /** The values that hold no other values. */
  function Leaf(p: Platform, data: seq<byte>, at: nat, tag: byte): (r: Parsed<Json>)
    requires at <= |data| && IsLeaf(tag)
    ensures r.Parsed? ==> at <= r.next <= |data|
  {
    if tag == TAG_SMALL_INT then
      var (n, a) :- Unsigned(data, at, 1);
      Parsed(Int(n), a)
    else if tag == TAG_INTEGER then
      var (n, a) :- Unsigned(data, at, 4);
      Parsed(Int(ToInt32(n)), a)
    else if tag == TAG_FLOAT then TextFloat(p, data, at)
    else if tag == TAG_NEW_FLOAT then
      var (n, a) :- Unsigned(data, at, 8);
      Parsed(Float(n), a)
    else if tag == TAG_ATOM then Counted(data, at, 2, true)
    else if tag == TAG_SMALL_ATOM then Counted(data, at, 1, true)
    else if tag == TAG_NIL then Parsed(Arr([]), at)
    else if tag == TAG_STRING then StringAsList(data, at)
    else if tag == TAG_BINARY then Counted(data, at, 4, false)
    else if tag == TAG_SMALL_BIG then CountedBigInt(data, at, 1)
    else CountedBigInt(data, at, 4)
  }

  /** One value starting at a type tag. Every success moves past at least one byte and never past the end. */
  function Decode(p: Platform, data: seq<byte>, at: nat): (r: Parsed<Json>)
    requires at <= |data|
    ensures r.Parsed? ==> at < r.next <= |data|
    decreases |data| - at, 0
  {
    if at >= |data| then Thrown(PastEnd)
    else
      var tag, a := data[at], at + 1;
      if IsLeaf(tag) then Leaf(p, data, a, tag)
      else if tag == TAG_SMALL_TUPLE then Tuple(p, data, a, 1)
      else if tag == TAG_LARGE_TUPLE then Tuple(p, data, a, 4)
      else if tag == TAG_LIST then List(p, data, a)
      else if tag == TAG_MAP then Map(p, data, a)
      else Special(p, data, a, tag)
  }

  /** `count` values in a row. */
  function Items(p: Platform, data: seq<byte>, at: nat, count: nat, acc: seq<Json>): (r: Parsed<seq<Json>>)
    requires at <= |data|
    ensures r.Parsed? ==> at <= r.next <= |data|
    decreases |data| - at, 1
  {
    if count == 0 then Parsed(acc, at)
    else
      var (item, a) :- Decode(p, data, at);
      Items(p, data, a, count - 1, acc + [item])
  }

  function Tuple(p: Platform, data: seq<byte>, at: nat, width: nat): (r: Parsed<Json>)
    requires at <= |data| && width > 0
    ensures r.Parsed? ==> at + width <= r.next <= |data|
    decreases |data| - at, 2
  {
    var (count, a) :- Unsigned(data, at, width);
    var (items, b) :- Items(p, data, a, count, []);
    Parsed(Arr(items), b)
  }

  /** A list whose tail is not the empty list decodes to null. */
  function List(p: Platform, data: seq<byte>, at: nat): (r: Parsed<Json>)
    requires at <= |data|
    ensures r.Parsed? ==> at + 4 < r.next <= |data|
    decreases |data| - at, 2
  {
    var (count, a) :- Unsigned(data, at, 4);
    var (items, b) :- Items(p, data, a, count, []);
    var (tail, c) :- Unsigned(data, b, 1);
    Parsed(if tail == TAG_NIL then Arr(items) else Null, c)
  }

  function Members(p: Platform, data: seq<byte>, at: nat, count: nat, acc: seq<Member>): (r: Parsed<seq<Member>>)
    requires at <= |data|
    ensures r.Parsed? ==> at <= r.next <= |data|
    decreases |data| - at, 1
  {
    if count == 0 then Parsed(acc, at)
    else
      var (key, a) :- Decode(p, data, at);
      var (name, b) :- KeyText(p, key, a);
      var (value, c) :- Decode(p, data, b);
      Members(p, data, c, count - 1, Emplace(acc, name, value))
  }

  /** A map without entries stays null. */
  function MapValue(members: seq<Member>): Json
  {
    if members == [] then Null else Obj(members)
  }

  function Map(p: Platform, data: seq<byte>, at: nat): (r: Parsed<Json>)
    requires at <= |data|
    ensures r.Parsed? ==> at + 4 <= r.next <= |data|
    decreases |data| - at, 2
  {
    var (count, a) :- Unsigned(data, at, 4);
    var (members, b) :- Members(p, data, a, count, []);
    Parsed(MapValue(members), b)
  }

  /** References, ports, process identifiers and exports, and the tags that are refused. */
  function Special(p: Platform, data: seq<byte>, at: nat, tag: byte): (r: Parsed<Json>)
    requires at <= |data|
    ensures r.Parsed? ==> at < r.next <= |data|
    decreases |data| - at, 2
  {
    if tag == TAG_REFERENCE then
      var (node, a) :- Decode(p, data, at);
      var (ids, b) :- Ids(data, a, 1, []);
      var (creation, c) :- Unsigned(data, b, 1);
      Parsed(Obj([Member(KEY_CREATION, Int(creation)), Member(KEY_ID, ids), Member(KEY_NODE, node)]), c)
    else if tag == TAG_NEW_REFERENCE then
      var (count, a) :- Unsigned(data, at, 2);
      var (node, b) :- Decode(p, data, a);
      var (creation, c) :- Unsigned(data, b, 1);
      var (ids, d) :- Ids(data, c, count, []);
      Parsed(Obj([Member(KEY_CREATION, Int(creation)), Member(KEY_ID, ids), Member(KEY_NODE, node)]), d)
    else if tag == TAG_PORT then
      var (node, a) :- Decode(p, data, at);
      var (id, b) :- Unsigned(data, a, 4);
      var (creation, c) :- Unsigned(data, b, 1);
      Parsed(Obj([Member(KEY_CREATION, Int(creation)), Member(KEY_ID, Int(id)), Member(KEY_NODE, node)]), c)
    else if tag == TAG_PID then
      var (node, a) :- Decode(p, data, at);
      var (id, b) :- Unsigned(data, a, 4);
      var (serial, c) :- Unsigned(data, b, 4);
      var (creation, d) :- Unsigned(data, c, 1);
      Parsed(Obj([Member(KEY_CREATION, Int(creation)), Member(KEY_ID, Int(id)),
                  Member(KEY_NODE, node), Member(KEY_SERIAL, Int(serial))]), d)
    else if tag == TAG_EXPORT then
      var (mod, a) :- Decode(p, data, at);
      var (fun, b) :- Decode(p, data, a);
      var (arity, c) :- Decode(p, data, b);
      Parsed(Obj([Member(KEY_ARITY, arity), Member(KEY_FUN, fun), Member(KEY_MOD, mod)]), c)
    else if tag == TAG_DISTRIBUTION then Thrown(Distribution)
    else if tag == TAG_COMPRESSED then Thrown(CompressedTerm)
    else Thrown(UnknownType)
  }

  /** A whole message: the version byte and one value; what follows it is not looked at. */
  function DecodeMessage(p: Platform, data: seq<byte>): Parsed<Json>
  {
    var (version, a) :- Unsigned(data, 0, 1);
    if version == FORMAT_VERSION then Decode(p, data, a) else Thrown(BadVersion)
  }

  // ----- A result is never larger than the bytes it came from -----

  lemma NodesSnoc(acc: seq<Json>, item: Json)
    ensures ItemNodes(acc + [item]) == ItemNodes(acc) + Nodes(item)
    decreases |acc|
  {
    if acc == [] {
      assert acc + [item] == [item];
    } else {
      assert (acc + [item])[1..] == acc[1..] + [item];
      NodesSnoc(acc[1..], item);
    }
  }

  lemma EmplaceNodes(members: seq<Member>, key: seq<byte>, value: Json)
    ensures MemberNodes(Emplace(members, key, value)) <= MemberNodes(members) + Nodes(value)
    decreases |members|
  {
    if members == [] || KeyLess(key, members[0].key) {
      assert ([Member(key, value)] + members)[1..] == members;
    } else if members[0].key != key {
      EmplaceNodes(members[1..], key, value);
      assert ([members[0]] + Emplace(members[1..], key, value))[1..] == Emplace(members[1..], key, value);
    }
  }

  lemma SmallIntNodes(s: seq<byte>)
    ensures ItemNodes(SmallInts(s)) == |s|
    decreases |s|
  {
    if s != [] {
      SmallIntNodes(s[..|s| - 1]);
      NodesSnoc(SmallInts(s[..|s| - 1]), Int(s[|s| - 1]));
    }
  }

  lemma IdNodes(data: seq<byte>, at: nat, count: nat, acc: seq<Json>)
    requires at <= |data| && Ids(data, at, count, acc).Parsed?
    ensures Nodes(Ids(data, at, count, acc).value) == 1 + ItemNodes(acc) + count
    decreases count
  {
    if count > 0 {
      var id := Int(ToInt32(Unsigned(data, at, 4).value));
      NodesSnoc(acc, id);
      IdNodes(data, at + 4, count - 1, acc + [id]);
    }
  }

  lemma {:induction false} NodeBound(p: Platform, data: seq<byte>, at: nat)
    requires at <= |data|
    ensures var r := Decode(p, data, at); r.Parsed? ==> Nodes(r.value) <= r.next - at
    decreases |data| - at, 0
  {
    if at < |data| && Decode(p, data, at).Parsed? {
      var tag, a := data[at], at + 1;
      if IsLeaf(tag) {
        LeafBound(p, data, a, tag);
      } else if tag == TAG_SMALL_TUPLE {
        ItemsBound(p, data, a + 1, Unsigned(data, a, 1).value, []);
      } else if tag == TAG_LARGE_TUPLE {
        ItemsBound(p, data, a + 4, Unsigned(data, a, 4).value, []);
      } else if tag == TAG_LIST {
        ItemsBound(p, data, a + 4, Unsigned(data, a, 4).value, []);
      } else if tag == TAG_MAP {
        MembersBound(p, data, a + 4, Unsigned(data, a, 4).value, []);
      } else {
        SpecialBound(p, data, a, tag);
      }
    }
  }

  lemma LeafBound(p: Platform, data: seq<byte>, at: nat, tag: byte)
    requires at <= |data| && IsLeaf(tag)
    ensures var r := Leaf(p, data, at, tag); r.Parsed? ==> Nodes(r.value) <= r.next - at + 1
  {
    var r := Leaf(p, data, at, tag);
    if r.Parsed? && tag == TAG_STRING {
      SmallIntNodes(data[at + 2..r.next]);
    }
  }

  lemma {:induction false} ItemsBound(p: Platform, data: seq<byte>, at: nat, count: nat, acc: seq<Json>)
    requires at <= |data|
    ensures var r := Items(p, data, at, count, acc);
            r.Parsed? ==> ItemNodes(r.value) <= ItemNodes(acc) + r.next - at
    decreases |data| - at, 1
  {
    if count > 0 && Decode(p, data, at).Parsed? {
      var r := Decode(p, data, at);
      NodeBound(p, data, at);
      NodesSnoc(acc, r.value);
      ItemsBound(p, data, r.next, count - 1, acc + [r.value]);
    }
  }

  lemma {:induction false} MembersBound(p: Platform, data: seq<byte>, at: nat, count: nat, acc: seq<Member>)
    requires at <= |data|
    ensures var r := Members(p, data, at, count, acc);
            r.Parsed? ==> MemberNodes(r.value) <= MemberNodes(acc) + r.next - at
    decreases |data| - at, 1
  {
    if count > 0 && Members(p, data, at, count, acc).Parsed? {
      var key := Decode(p, data, at);
      var name := KeyText(p, key.value, key.next);
      var value := Decode(p, data, key.next);
      NodeBound(p, data, key.next);
      EmplaceNodes(acc, name.value, value.value);
      MembersBound(p, data, value.next, count - 1, Emplace(acc, name.value, value.value));
    }
  }

  lemma {:induction false} SpecialBound(p: Platform, data: seq<byte>, at: nat, tag: byte)
    requires at <= |data|
    ensures var r := Special(p, data, at, tag); r.Parsed? ==> Nodes(r.value) <= r.next - at + 1
    decreases |data| - at, 2
  {
    var r := Special(p, data, at, tag);
    if r.Parsed? {
      var a := if tag == TAG_NEW_REFERENCE then at + 2 else at;
      var node := Decode(p, data, a);
      NodeBound(p, data, a);
      if tag == TAG_EXPORT {
        var fun := Decode(p, data, node.next);
        NodeBound(p, data, node.next);
        NodeBound(p, data, fun.next);
        MembersOfThree(r.value.members);
      } else {
        RecordBound(p, data, at, tag, node);
      }
    }
  }

  lemma RecordBound(p: Platform, data: seq<byte>, at: nat, tag: byte, node: Parsed<Json>)
    requires at <= |data| && tag != TAG_EXPORT && Special(p, data, at, tag).Parsed?
    requires node == Decode(p, data, if tag == TAG_NEW_REFERENCE then at + 2 else at)
    ensures Nodes(Special(p, data, at, tag).value) <= Nodes(node.value) + Special(p, data, at, tag).next - node.next
                                                      + if tag == TAG_NEW_REFERENCE then 2 else 0
  {
    hide Decode;
    MembersOfThree(Special(p, data, at, tag).value.members);
    if tag == TAG_REFERENCE {
      IdNodes(data, node.next, 1, []);
    } else if tag == TAG_NEW_REFERENCE {
      IdNodes(data, node.next + 1, Unsigned(data, at, 2).value, []);
    }
  }

  lemma {:induction false} MembersOfThree(members: seq<Member>)
    ensures |members| == 3 ==>
              MemberNodes(members) == Nodes(members[0].value) + Nodes(members[1].value) + Nodes(members[2].value)
    ensures |members| == 4 ==>
              MemberNodes(members) == Nodes(members[0].value) + Nodes(members[1].value)
                                      + Nodes(members[2].value) + Nodes(members[3].value)
  {
    var a := if |members| > 0 then members[1..] else [];
    var b := if |a| > 0 then a[1..] else [];
    var c := if |b| > 0 then b[1..] else [];
    if |members| == 3 {
      assert c == [] && a[0] == members[1] && b[0] == members[2];
      assert MemberNodes(b) == Nodes(b[0].value) + MemberNodes(c);
      assert MemberNodes(a) == Nodes(a[0].value) + MemberNodes(b);
    } else if |members| == 4 {
      assert c[1..] == [] && a[0] == members[1] && b[0] == members[2] && c[0] == members[3];
      assert MemberNodes(c) == Nodes(c[0].value) + MemberNodes(c[1..]);
      assert MemberNodes(b) == Nodes(b[0].value) + MemberNodes(c);
      assert MemberNodes(a) == Nodes(a[0].value) + MemberNodes(b);
    }
  }
}
