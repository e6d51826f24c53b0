/**
 JSON values as the library holds them, and what the External Term Format
 (ERTS User's Guide, "External Term Format") makes of them.
 */
module EtfTerm {
  import opened Bytes

  /** Objects are kept in the order of the ordered map behind them: see `WellFormed`. */
  datatype Json =
    | Null
    | Bool(b: bool)
    | Int(n: int)
    | Float(bits: nat)
    | Str(s: seq<byte>)
    | Arr(items: seq<Json>)
    | Obj(members: seq<Member>)

  datatype Member = Member(key: seq<byte>, value: Json)

  datatype EtfError =
    | PastEnd
    | UnknownType
    | Distribution
    | BadVersion
    | BigIntTooLarge
    | StringListPastEnd
    | KeyNotText
    | CompressedTerm
    | ListTooLarge
    | MapTooLarge

  const FORMAT_VERSION: byte := 131
  const TAG_DISTRIBUTION: byte := 68
  const TAG_NEW_FLOAT: byte := 70
  const TAG_COMPRESSED: byte := 80
  const TAG_SMALL_INT: byte := 97
  const TAG_INTEGER: byte := 98
  const TAG_FLOAT: byte := 99
  const TAG_ATOM: byte := 100
  const TAG_REFERENCE: byte := 101
  const TAG_PORT: byte := 102
  const TAG_PID: byte := 103
  const TAG_SMALL_TUPLE: byte := 104
  const TAG_LARGE_TUPLE: byte := 105
  const TAG_NIL: byte := 106
  const TAG_STRING: byte := 107
  const TAG_LIST: byte := 108
  const TAG_BINARY: byte := 109
  const TAG_SMALL_BIG: byte := 110
  const TAG_LARGE_BIG: byte := 111
  const TAG_EXPORT: byte := 113
  const TAG_NEW_REFERENCE: byte := 114
  const TAG_SMALL_ATOM: byte := 115
  const TAG_MAP: byte := 116

  const ATOM_NIL: seq<byte> := [110, 105, 108]
  const ATOM_NULL: seq<byte> := [110, 117, 108, 108]
  const ATOM_TRUE: seq<byte> := [116, 114, 117, 101]
  const ATOM_FALSE: seq<byte> := [102, 97, 108, 115, 101]

  // ----- Fixed-width integers -----

  function ToInt32(n: int): int
  {
    (n + 0x8000_0000) % TWO_32 - 0x8000_0000
  }

  function ToInt64(n: int): int
  {
    (n + 0x8000_0000_0000_0000) % TWO_64 - 0x8000_0000_0000_0000
  }

  // ----- Objects -----

  predicate KeyLess(a: seq<byte>, b: seq<byte>)
  {
    b != [] && (a == [] || a[0] < b[0] || (a[0] == b[0] && KeyLess(a[1..], b[1..])))
  }

  lemma {:induction false} KeyOrder(a: seq<byte>, b: seq<byte>)
    ensures KeyLess(a, b) ==> a != b && !KeyLess(b, a)
    ensures !KeyLess(a, b) && a != b ==> KeyLess(b, a)
  {
    if a != [] && b != [] && a[0] == b[0] {
      KeyOrder(a[1..], b[1..]);
      assert a == [a[0]] + a[1..] && b == [b[0]] + b[1..];
    }
  }

  lemma {:induction false} KeyTransitive(a: seq<byte>, b: seq<byte>, c: seq<byte>)
    requires KeyLess(a, b) && KeyLess(b, c)
    ensures KeyLess(a, c)
  {
    if a != [] && a[0] == b[0] == c[0] {
      KeyTransitive(a[1..], b[1..], c[1..]);
    }
  }

  predicate Ascending(members: seq<Member>)
  {
    forall i, j :: 0 <= i < j < |members| ==> KeyLess(members[i].key, members[j].key)
  }

  /** Insertion into the ordered map; a key that is already there keeps its first value. */
  function Emplace(members: seq<Member>, key: seq<byte>, value: Json): seq<Member>
  {
    if members == [] || KeyLess(key, members[0].key) then [Member(key, value)] + members
    else if members[0].key == key then members
    else [members[0]] + Emplace(members[1..], key, value)
  }

  lemma {:induction false} EmplaceLast(members: seq<Member>, key: seq<byte>, value: Json)
    requires forall m :: m in members ==> KeyLess(m.key, key)
    ensures Emplace(members, key, value) == members + [Member(key, value)]
  {
    if members != [] {
      assert members[0] in members;
      KeyOrder(members[0].key, key);
      EmplaceLast(members[1..], key, value);
    }
  }

  /** The map behind an object: what each key is bound to. */
  function Bindings(members: seq<Member>): map<seq<byte>, Json>
  {
    if members == [] then map[]
    else Bindings(members[1..])[members[0].key := members[0].value]
  }

  lemma {:induction false} EmplaceAscending(members: seq<Member>, key: seq<byte>, value: Json)
    requires Ascending(members)
    ensures Ascending(Emplace(members, key, value))
    ensures forall m :: m in Emplace(members, key, value) ==> m in members || m == Member(key, value)
  {
    if members == [] {
    } else if KeyLess(key, members[0].key) {
      forall j | 0 <= j < |members| ensures KeyLess(key, members[j].key) {
        if j > 0 { KeyTransitive(key, members[0].key, members[j].key); }
      }
    } else if members[0].key != key {
      KeyOrder(key, members[0].key);
      var tail, rest := members[1..], Emplace(members[1..], key, value);
      EmplaceAscending(tail, key, value);
      forall j | 0 <= j < |rest| ensures KeyLess(members[0].key, rest[j].key) {
        assert rest[j] in rest;
        if rest[j] in tail {
          var i :| 0 <= i < |tail| && tail[i] == rest[j];
          assert members[i + 1] == rest[j];
        }
      }
    }
  }

  lemma {:induction false} EmplaceBinds(members: seq<Member>, key: seq<byte>, value: Json)
    requires Ascending(members)
    ensures Bindings(Emplace(members, key, value))
         == if key in Bindings(members) then Bindings(members) else Bindings(members)[key := value]
  {
    if members == [] {
    } else if KeyLess(key, members[0].key) {
      forall j | 0 <= j < |members| ensures KeyLess(key, members[j].key) {
        if j > 0 { KeyTransitive(key, members[0].key, members[j].key); }
      }
      NotBound(members, key);
      assert Emplace(members, key, value)[1..] == members;
    } else if members[0].key != key {
      EmplaceBinds(members[1..], key, value);
      assert ([members[0]] + Emplace(members[1..], key, value))[1..] == Emplace(members[1..], key, value);
    }
  }

  lemma {:induction false} NotBound(members: seq<Member>, key: seq<byte>)
    requires forall j :: 0 <= j < |members| ==> KeyLess(key, members[j].key)
    ensures key !in Bindings(members)
  {
    if members != [] {
      KeyOrder(key, members[0].key);
      NotBound(members[1..], key);
    }
  }

  // ----- Which values there are -----

  /** What the library's value type guarantees: 64-bit numbers, and objects ordered by distinct keys. */
  predicate WellFormed(j: Json)
  {
    match j
    case Int(n) => -0x8000_0000_0000_0000 <= n < TWO_64
    case Float(bits) => bits < TWO_64
    case Arr(items) => forall i :: 0 <= i < |items| ==> WellFormed(items[i])
    case Obj(members) => Ascending(members) && forall i :: 0 <= i < |members| ==> WellFormed(members[i].value)
    case _ => true
  }

  /** Sizes the four-byte length fields can hold. */
  predicate Fits(j: Json)
  {
    match j
    case Str(s) => |s| < TWO_32
    case Arr(items) => |items| < TWO_32 - 1 && forall i :: 0 <= i < |items| ==> Fits(items[i])
    case Obj(members) =>
      |members| < TWO_32 - 1 &&
      forall i :: 0 <= i < |members| ==> |members[i].key| < TWO_32 && Fits(members[i].value)
    case _ => true
  }

  predicate NoEmptyArray(j: Json)
  {
    match j
    case Arr(items) => items != [] && forall i :: 0 <= i < |items| ==> NoEmptyArray(items[i])
    case Obj(members) => forall i :: 0 <= i < |members| ==> NoEmptyArray(members[i].value)
    case _ => true
  }

  /** Values that keep their exact shape: 32-bit integers and no empty object. */
  predicate Faithful(j: Json)
  {
    match j
    case Int(n) => -0x8000_0000 <= n < 0x8000_0000
    case Arr(items) => forall i :: 0 <= i < |items| ==> Faithful(items[i])
    case Obj(members) => members != [] && forall i :: 0 <= i < |members| ==> Faithful(members[i].value)
    case _ => true
  }

  // ----- Encoding -----

  function Atom(name: seq<byte>): seq<byte>
    requires |name| < 256
  {
    [TAG_SMALL_ATOM, |name|] + name
  }

  function Binary(s: seq<byte>): seq<byte>
  {
    [TAG_BINARY] + BigEndian(|s| % TWO_32, 4) + s
  }

  function IntTerm(n: int): seq<byte>
    requires -0x8000_0000_0000_0000 <= n < 0x8000_0000_0000_0000
  {
    if 0 <= n <= 127 then [TAG_SMALL_INT, n]
    else if n >= TWO_32 - 2 then
      DigitsLength(n, 8); PowValues();
      [TAG_SMALL_BIG, |Digits(n)|, 0] + Digits(n)
    else [TAG_INTEGER] + BigEndian(n % TWO_32, 4)
  }

  function Term(j: Json): seq<byte>
    decreases j, 0
  {
    match j
    case Null => Atom(ATOM_NIL)
    case Bool(b) => Atom(if b then ATOM_TRUE else ATOM_FALSE)
    case Int(n) => IntTerm(ToInt64(n))
    case Float(bits) => [TAG_NEW_FLOAT] + BigEndian(bits, 8)
    case Str(s) => Binary(s)
    case Arr(items) =>
      (if items == [] then [TAG_NIL] else [])
      + ([TAG_LIST] + BigEndian(|items| % TWO_32, 4)) + (ItemTerms(items) + [TAG_NIL])
    case Obj(members) => ([TAG_MAP] + BigEndian(|members| % TWO_32, 4)) + MemberTerms(members)
  }

  function ItemTerms(items: seq<Json>): seq<byte>
    decreases items, 1
  {
    if items == [] then [] else Term(items[0]) + ItemTerms(items[1..])
  }

  function MemberTerms(members: seq<Member>): seq<byte>
    decreases members, 1
  {
    if members == [] then [] else MemberTerm(members[0]) + MemberTerms(members[1..])
  }

  function MemberTerm(m: Member): seq<byte>
    decreases m, 0
  {
    Binary(m.key) + Term(m.value)
  }

  /** The first container, in writing order, that has too many elements for its length field. */
  datatype Check = Good | Bad(error: EtfError)

  function SizeCheck(j: Json): Check
    decreases j, 0
  {
    match j
    case Arr(items) => if |items| > TWO_32 - 2 then Bad(ListTooLarge) else ItemsCheck(items)
    case Obj(members) => if |members| > TWO_32 - 2 then Bad(MapTooLarge) else MembersCheck(members)
    case _ => Good
  }

  function ItemsCheck(items: seq<Json>): Check
    decreases items, 1
  {
    if items == [] then Good
    else match SizeCheck(items[0]) case Bad(e) => Bad(e) case Good => ItemsCheck(items[1..])
  }

  function MembersCheck(members: seq<Member>): Check
    decreases members, 1
  {
    if members == [] then Good
    else match SizeCheck(members[0].value) case Bad(e) => Bad(e) case Good => MembersCheck(members[1..])
  }

  // ----- What a value has become after it was written and read back -----

  function NormalInt(n: int): Json
  {
    var m := ToInt64(n);
    if 0 <= m <= 127 then Int(m)
    else if m >= TWO_32 - 2 then Str(Decimal(m))
    else Int(ToInt32(m))
  }

  function Normal(j: Json): Json
    decreases j, 0
  {
    match j
    case Int(n) => NormalInt(n)
    case Arr(items) => Arr(NormalItems(items))
    case Obj(members) => if members == [] then Null else Obj(NormalMembers(members))
    case _ => j
  }

  function NormalItems(items: seq<Json>): (r: seq<Json>)
    ensures |r| == |items|
    decreases items, 1
  {
    if items == [] then [] else [Normal(items[0])] + NormalItems(items[1..])
  }

  function NormalMembers(members: seq<Member>): (r: seq<Member>)
    ensures |r| == |members|
    decreases members, 1
  {
    if members == [] then []
    else [Member(members[0].key, Normal(members[0].value))] + NormalMembers(members[1..])
  }

  // ----- Size of a value -----

  /** How many JSON values a value is made of, itself included. */
  function Nodes(j: Json): (n: nat)
    ensures n > 0
    decreases j, 0
  {
    match j
    case Arr(items) => 1 + ItemNodes(items)
    case Obj(members) => 1 + MemberNodes(members)
    case _ => 1
  }

  function ItemNodes(items: seq<Json>): nat
    decreases items, 1
  {
    if items == [] then 0 else Nodes(items[0]) + ItemNodes(items[1..])
  }

  function MemberNodes(members: seq<Member>): nat
    decreases members, 1
  {
    if members == [] then 0 else Nodes(members[0].value) + MemberNodes(members[1..])
  }
}
