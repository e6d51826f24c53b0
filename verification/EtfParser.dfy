/** The parser: a recursive descent over one shared offset. */
module EtfParser {
  import opened Bytes
  import opened EtfTerm
  import opened EtfDecode

  datatype Result<+T> = Ok(value: T) | Err(error: EtfError) {
    predicate IsFailure() { Err? }
    function PropagateFailure<U>(): Result<U>
      requires Err?
    {
      Err(error)
    }
    function Extract(): T
      requires Ok?
    {
      value
    }
  }

  lemma FirstDigits(data: seq<byte>)
    ensures Pow256(0) == 1 && forall at {:trigger data[at..at]} :: 0 <= at <= |data| ==> FromDigits(data[at..at]) == 0
  {
  }

  lemma NextDigit(data: seq<byte>, at: nat, i: nat)
    requires at + i < |data|
    ensures FromDigits(data[at..at + i + 1]) == FromDigits(data[at..at + i]) + data[at + i] * Pow256(i)
    ensures Pow256(i + 1) == Pow256(i) * 256
  {
    FromDigitsSnoc(data[at..at + i], data[at + i]);
    assert data[at..at + i] + [data[at + i]] == data[at..at + i + 1];
  }

  lemma OneByte(data: seq<byte>, at: nat)
    requires at < |data|
    ensures FromBigEndian(data[at..at + 1]) == data[at]
  {
    assert data[at..at + 1] == [data[at]];
    assert [data[at]][..0] == [];
  }

  class Parser {
    const platform: Platform
    var data: seq<byte>
    var offset: nat

    constructor (platform: Platform)
      ensures this.platform == platform && data == [] && offset == 0
    {
      this.platform := platform;
      data, offset := [], 0;
    }

    ghost predicate Valid()
      reads this
    {
      offset <= |data|
    }

    /** The outcome and the offset are the ones the grammar gives; after an error the offset is anywhere in the data. */
    ghost predicate Reads<T(!new)>(spec: Parsed<T>, r: Result<T>)
      reads this
    {
      && Valid()
      && match spec
         case Parsed(v, next) => r == Ok(v) && offset == next
         case Thrown(e) => r == Err(e)
    }

    method ReadBits(width: nat) returns (r: Result<nat>)
      requires Valid() && width in {1, 2, 4, 8}
      modifies this`offset
      ensures Reads(Unsigned(data, old(offset), width), r)
      ensures r.Ok? ==> r.value < Pow256(width)
    {
      if offset + width > |data| {
        return Err(PastEnd);
      }
      var val := FromBigEndian(data[offset..offset + width]);
      FromBigEndianBound(data[offset..offset + width]);
      offset := offset + width;
      r := Ok(val);
    }

    method ReadString(length: nat) returns (text: Text)
      requires Valid()
      modifies this`offset
      ensures Valid() && (text, offset) == Run(data, old(offset), length)
    {
      if offset + length > |data| {
        return NoText;
      }
      text := Text(data[offset..offset + length]);
      offset := offset + length;
    }

    method DecodeCounted(width: nat, atom: bool) returns (r: Result<Json>)
      requires Valid() && width in {1, 2, 4}
      modifies this`offset
      ensures Reads(Counted(data, old(offset), width, atom), r)
    {
      var length :- ReadBits(width);
      var text := ReadString(length);
      r := Ok(if atom then AtomValue(text) else StringValue(text));
    }

    method DecodeFloat() returns (r: Result<Json>)
      requires Valid()
      modifies this`offset
      ensures Reads(TextFloat(platform, data, old(offset)), r)
    {
      var text := ReadString(31);
      match text
      case NoText => r := Ok(Null);
      case Text(s) =>
        match platform.scan(s) {
          case Number(bits) => r := Ok(Float(bits));
          case NotANumber => r := Ok(Null);
        }
    }

    method DecodeStringAsList() returns (r: Result<Json>)
      requires Valid()
      modifies this`offset
      ensures Reads(StringAsList(data, old(offset)), r)
    {
      var length :- ReadBits(2);
      var elements: seq<Json> := [];
      if offset + length > |data| {
        return Err(StringListPastEnd);
      }
      ghost var start := offset;
      for i := 0 to length
        invariant offset == start + i && elements == SmallInts(data[start..start + i])
      {
        PowValues();
        var b := ReadBits(1);
        OneByte(data, start + i);
        assert data[start..start + i + 1][..i] == data[start..start + i];
        elements := elements + [Int(b.value)];
      }
      r := Ok(Arr(elements));
    }

    method DecodeBigInt(digits: nat) returns (r: Result<Json>)
      requires Valid()
      modifies this`offset
      ensures Reads(BigInt(data, old(offset), digits), r)
    {
      hide BigIntText, FromBigEndian, FromDigits, Pow256;
      FirstDigits(data);
      var sign :- ReadBits(1);
      if digits > 8 {
        return Err(BigIntTooLarge);
      }
      var value, b := 0, 1;
      ghost var start := offset;
      for i := 0 to digits
        invariant start <= offset == start + i <= |data|
        invariant b == Pow256(i) && value == FromDigits(data[start..start + i])
      {
        var digit :- ReadBits(1);
        PowValues();
        OneByte(data, start + i);
        NextDigit(data, start, i);
        value := value + digit * b;
        b := b * 256;
      }
      r := Ok(Str(BigIntText(sign, digits, value)));
    }

    method DecodeIds(count: nat) returns (r: Result<Json>)
      requires Valid()
      modifies this`offset
      ensures Reads(Ids(data, old(offset), count, []), r)
    {
      var ids: seq<Json> := [];
      ghost var start := offset;
      for i := 0 to count
        invariant Valid() && Ids(data, start, count, []) == Ids(data, offset, count - i, ids)
      {
        var id :- ReadBits(4);
        ids := ids + [Int(ToInt32(id))];
      }
      r := Ok(Arr(ids));
    }

    method DecodeLeaf(tag: byte) returns (r: Result<Json>)
      requires Valid() && IsLeaf(tag)
      modifies this`offset
      ensures Reads(Leaf(platform, data, old(offset), tag), r)
    {
      if tag == TAG_SMALL_INT {
        var n :- ReadBits(1);
        r := Ok(Int(n));
      } else if tag == TAG_INTEGER {
        var n :- ReadBits(4);
        r := Ok(Int(ToInt32(n)));
      } else if tag == TAG_FLOAT {
        r := DecodeFloat();
      } else if tag == TAG_NEW_FLOAT {
        var n :- ReadBits(8);
        r := Ok(Float(n));
      } else if tag == TAG_ATOM {
        r := DecodeCounted(2, true);
      } else if tag == TAG_SMALL_ATOM {
        r := DecodeCounted(1, true);
      } else if tag == TAG_NIL {
        r := Ok(Arr([]));
      } else if tag == TAG_STRING {
        r := DecodeStringAsList();
      } else if tag == TAG_BINARY {
        r := DecodeCounted(4, false);
      } else {
        var digits :- ReadBits(if tag == TAG_SMALL_BIG then 1 else 4);
        r := DecodeBigInt(digits);
      }
    }

    method DecodeArray(length: nat) returns (r: Result<seq<Json>>)
      requires Valid()
      modifies this`offset
      ensures Reads(Items(platform, data, old(offset), length, []), r)
      decreases |data| - offset, 1
    {
      hide Decode;
      var elements: seq<Json> := [];
      for i := 0 to length
        invariant Valid() && old(offset) <= offset
        invariant Items(platform, data, old(offset), length, []) == Items(platform, data, offset, length - i, elements)
      {
        var item :- InnerParse();
        elements := elements + [item];
      }
      r := Ok(elements);
    }

    method DecodeTuple(width: nat) returns (r: Result<Json>)
      requires Valid() && width in {1, 4}
      modifies this`offset
      ensures Reads(Tuple(platform, data, old(offset), width), r)
      decreases |data| - offset, 2
    {
      var length :- ReadBits(width);
      var elements :- DecodeArray(length);
      r := Ok(Arr(elements));
    }

    method DecodeList() returns (r: Result<Json>)
      requires Valid()
      modifies this`offset
      ensures Reads(List(platform, data, old(offset)), r)
      decreases |data| - offset, 2
    {
      var length :- ReadBits(4);
      var elements :- DecodeArray(length);
      var tailMarker :- ReadBits(1);
      r := Ok(if tailMarker == TAG_NIL then Arr(elements) else Null);
    }

    method DecodeMap() returns (r: Result<Json>)
      requires Valid()
      modifies this`offset
      ensures Reads(Map(platform, data, old(offset)), r)
      decreases |data| - offset, 2
    {
      hide Decode;
      var length :- ReadBits(4);
      var members: seq<Member> := [];
      ghost var start := offset;
      for i := 0 to length
        invariant Valid() && start <= offset
        invariant Members(platform, data, start, length, []) == Members(platform, data, offset, length - i, members)
      {
        var key :- InnerParse();
        var name :- KeyOf(key);
        var value :- InnerParse();
        members := Emplace(members, name, value);
      }
      r := Ok(MapValue(members));
    }

    method KeyOf(key: Json) returns (r: Result<seq<byte>>)
      requires Valid()
      ensures Reads(KeyText(platform, key, offset), r)
    {
      match key
      case Int(n) => r := Ok(Decimal(n % TWO_64));
      case Float(bits) => r := Ok(Decimal(platform.truncate(bits)));
      case Str(s) => r := Ok(s);
      case _ => r := Err(KeyNotText);
    }

    method DecodeSpecial(tag: byte) returns (r: Result<Json>)
      requires Valid()
      modifies this`offset
      ensures Reads(Special(platform, data, old(offset), tag), r)
      decreases |data| - offset, 2
    {
      hide Decode, Ids;
      if tag == TAG_REFERENCE {
        var node :- InnerParse();
        var ids :- DecodeIds(1);
        var creation :- ReadBits(1);
        r := Ok(Obj([Member(KEY_CREATION, Int(creation)), Member(KEY_ID, ids), Member(KEY_NODE, node)]));
      } else if tag == TAG_NEW_REFERENCE {
        var count :- ReadBits(2);
        var node :- InnerParse();
        var creation :- ReadBits(1);
        var ids :- DecodeIds(count);
        r := Ok(Obj([Member(KEY_CREATION, Int(creation)), Member(KEY_ID, ids), Member(KEY_NODE, node)]));
      } else if tag == TAG_PORT {
        var node :- InnerParse();
        var id :- ReadBits(4);
        var creation :- ReadBits(1);
        r := Ok(Obj([Member(KEY_CREATION, Int(creation)), Member(KEY_ID, Int(id)), Member(KEY_NODE, node)]));
      } else if tag == TAG_PID {
        var node :- InnerParse();
        var id :- ReadBits(4);
        var serial :- ReadBits(4);
        var creation :- ReadBits(1);
        r := Ok(Obj([Member(KEY_CREATION, Int(creation)), Member(KEY_ID, Int(id)),
                     Member(KEY_NODE, node), Member(KEY_SERIAL, Int(serial))]));
      } else if tag == TAG_EXPORT {
        var mod :- InnerParse();
        var fun :- InnerParse();
        var arity :- InnerParse();
        r := Ok(Obj([Member(KEY_ARITY, arity), Member(KEY_FUN, fun), Member(KEY_MOD, mod)]));
      } else if tag == TAG_DISTRIBUTION {
        r := Err(Distribution);
      } else if tag == TAG_COMPRESSED {
        r := Err(CompressedTerm);
      } else {
        r := Err(UnknownType);
      }
    }

    method InnerParse() returns (r: Result<Json>)
      requires Valid()
      modifies this`offset
      ensures Reads(Decode(platform, data, old(offset)), r)
      decreases |data| - offset, 0
    {
      if offset >= |data| {
        return Err(PastEnd);
      }
      var tag := data[offset];
      offset := offset + 1;
      if IsLeaf(tag) {
        r := DecodeLeaf(tag);
      } else if tag == TAG_SMALL_TUPLE {
        r := DecodeTuple(1);
      } else if tag == TAG_LARGE_TUPLE {
        r := DecodeTuple(4);
      } else if tag == TAG_LIST {
        r := DecodeList();
      } else if tag == TAG_MAP {
        r := DecodeMap();
      } else {
        r := DecodeSpecial(tag);
      }
    }

    method Parse(input: seq<byte>) returns (r: Result<Json>)
      modifies this
      ensures data == input && Reads(DecodeMessage(platform, input), r)
    {
      data, offset := input, 0;
      var version :- ReadBits(1);
      if version == FORMAT_VERSION {
        r := InnerParse();
      } else {
        r := Err(BadVersion);
      }
    }
  }
}
