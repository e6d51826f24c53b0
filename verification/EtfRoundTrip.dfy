/** Reading back what the builder wrote. */
module EtfRoundTrip {
  import opened Bytes
  import opened Wrappers
  import opened EtfTerm
  import opened EtfDecode
  import opened EtfPieces
  import opened EtfReading
  import opened EtfWalk

  /** In any surroundings, what was written for a value without empty arrays is read as its normal form. */
  lemma TermAt(p: Platform, data: seq<byte>, at: nat, j: Json)
    requires WellFormed(j) && Fits(j) && NoEmptyArray(j)
    requires Occurs(data, at, Term(j))
    ensures Decode(p, data, at) == Parsed(Normal(j), at + |Term(j)|)
  {
    StandsHere(data, at);
    ValueAt(p, data, at, [], at, j);
    CleanOps(j);
    WalkClean(Ops(j));
  }

  // ----- Where values lie -----

  lemma {:induction false} NormalItemAt(items: seq<Json>, i: nat)
    requires i < |items|
    ensures NormalItems(items)[i] == Normal(items[i])
  {
    if i > 0 { NormalItemAt(items[1..], i - 1); }
  }

  lemma {:induction false} NormalMemberAt(members: seq<Member>, i: nat)
    requires i < |members|
    ensures NormalMembers(members)[i] == Member(members[i].key, Normal(members[i].value))
  {
    if i > 0 { NormalMemberAt(members[1..], i - 1); }
  }

  /** In order, every key is bound to its own value. */
  lemma {:induction false} BindingsAt(members: seq<Member>, i: nat)
    requires Ascending(members) && i < |members|
    ensures members[i].key in Bindings(members) && Bindings(members)[members[i].key] == members[i].value
  {
    if i > 0 {
      KeyOrder(members[0].key, members[i].key);
      BindingsAt(members[1..], i - 1);
    }
  }

  lemma NormalBindingsAt(members: seq<Member>, i: nat)
    requires Ascending(members) && i < |members|
    ensures var b := Bindings(NormalMembers(members));
            members[i].key in b && b[members[i].key] == Normal(members[i].value)
  {
    var normal := NormalMembers(members);
    forall k | 0 <= k < |members|
      ensures normal[k] == Member(members[k].key, Normal(members[k].value))
    {
      NormalMemberAt(members, k);
    }
    BindingsAt(normal, i);
  }

  // ----- Right results have the right shape -----

  lemma {:induction false} NormalIsShaped(j: Json)
    requires WellFormed(j)
    ensures Shaped(Normal(j), j)
  {
    match j
    case Arr(items) =>
      forall i | 0 <= i < |items|
        ensures Shaped(NormalItems(items)[i], items[i])
      {
        NormalItemAt(items, i);
        NormalIsShaped(items[i]);
      }
    case Obj(members) =>
      forall i | 0 <= i < |members|
        ensures members[i].key in Bindings(NormalMembers(members))
        ensures Shaped(Bindings(NormalMembers(members))[members[i].key], members[i].value)
      {
        NormalBindingsAt(members, i);
        NormalIsShaped(members[i].value);
      }
    case _ =>
  }

  lemma {:induction false} ShapedAsItself(j: Json)
    requires WellFormed(j)
    ensures Shaped(j, j)
  {
    match j
    case Arr(items) =>
      forall i | 0 <= i < |items|
        ensures Shaped(items[i], items[i])
      {
        ShapedAsItself(items[i]);
      }
    case Obj(members) =>
      forall i | 0 <= i < |members|
        ensures members[i].key in Bindings(members) && Shaped(Bindings(members)[members[i].key], members[i].value)
      {
        BindingsAt(members, i);
        ShapedAsItself(members[i].value);
      }
    case _ =>
  }

  // ----- Whole messages -----

  function Message(j: Json): seq<byte>
  {
    [FORMAT_VERSION] + Term(j)
  }

  lemma MessageStart(p: Platform, data: seq<byte>)
    requires data != [] && data[0] == FORMAT_VERSION
    ensures DecodeMessage(p, data) == Decode(p, data, 1)
  {
    ByteAt(data, 0, FORMAT_VERSION);
  }

  lemma {:induction false} FaithfulIsNormal(j: Json)
    requires WellFormed(j)
    ensures Faithful(j) <==> Normal(j) == j
    decreases j, 0
  {
    match j
    case Arr(items) => FaithfulItems(items);
    case Obj(members) => FaithfulMembers(members);
    case _ =>
  }

  lemma {:induction false} FaithfulItems(items: seq<Json>)
    requires forall x :: x in items ==> WellFormed(x)
    ensures (forall i :: 0 <= i < |items| ==> Faithful(items[i])) <==> NormalItems(items) == items
    decreases items, 1
  {
    if items != [] {
      FaithfulIsNormal(items[0]);
      FaithfulItems(items[1..]);
      var n := NormalItems(items);
      assert n[1..] == NormalItems(items[1..]);
      assert items == [items[0]] + items[1..];
      assert forall i :: 0 <= i < |items[1..]| ==> items[1..][i] == items[i + 1];
      if forall i :: 0 <= i < |items| ==> Faithful(items[i]) {
      } else {
        var i :| 0 <= i < |items| && !Faithful(items[i]);
        if i > 0 { assert !Faithful(items[1..][i - 1]); }
      }
    }
  }

  lemma {:induction false} FaithfulMembers(members: seq<Member>)
    requires forall m :: m in members ==> WellFormed(m.value)
    ensures (forall i :: 0 <= i < |members| ==> Faithful(members[i].value)) <==> NormalMembers(members) == members
    decreases members, 1
  {
    if members != [] {
      FaithfulIsNormal(members[0].value);
      FaithfulMembers(members[1..]);
      var n := NormalMembers(members);
      assert n[1..] == NormalMembers(members[1..]);
      assert members == [members[0]] + members[1..];
      assert forall i :: 0 <= i < |members[1..]| ==> members[1..][i] == members[i + 1];
      if forall i :: 0 <= i < |members| ==> Faithful(members[i].value) {
      } else {
        var i :| 0 <= i < |members| && !Faithful(members[i].value);
        if i > 0 { assert !Faithful(members[1..][i - 1].value); }
      }
    }
  }

  /** What a message comes back as: the normal form, or a value of another shape, if any. */
  lemma MessageReads(p: Platform, j: Json)
    requires WellFormed(j) && Fits(j)
    ensures var r := DecodeMessage(p, Message(j));
            if Survives(j) then r.Parsed? && r.value == Normal(j) else r.Parsed? ==> !Shaped(r.value, j)
  {
    hide Term, DecodeMessage, Decode, Walk, Ops, Shaped, Survives, WellFormed, Fits;
    var data := Message(j);
    MessageStart(p, data);
    assert Occurs(data, 1, Term(j));
    SurvivesIsWalk(j);
    StandsHere(data, 1);
    ValueAt(p, data, 1, [], 1, j);
  }

  /** The lossy round trip, of every value: exactly those that survive come back as their normal form. */
  lemma LossyRoundTrip(p: Platform, j: Json)
    requires WellFormed(j) && Fits(j)
    ensures var r := DecodeMessage(p, Message(j)); r.Parsed? && r.value == Normal(j) <==> Survives(j)
  {
    MessageReads(p, j);
    NormalIsShaped(j);
  }

  /** The exact round trip, of every value: besides surviving it takes 32-bit integers and no empty object. */
  lemma SameAgain(p: Platform, j: Json)
    requires WellFormed(j) && Fits(j)
    ensures var r := DecodeMessage(p, Message(j)); r.Parsed? && r.value == j <==> Survives(j) && Faithful(j)
  {
    MessageReads(p, j);
    ShapedAsItself(j);
    FaithfulIsNormal(j);
  }

  lemma CleanSurvives(j: Json)
    requires j == EMPTY || NoEmptyArray(j)
    ensures Survives(j)
  {
    if j == EMPTY {
      assert Ops(j)[1..] == [];
    } else {
      CleanOps(j);
    }
  }

  /** No container holds an empty array. */
  lemma RoundTrip(p: Platform, j: Json)
    requires WellFormed(j) && Fits(j)
    requires j == EMPTY || NoEmptyArray(j)
    ensures DecodeMessage(p, Message(j)).Parsed?
    ensures DecodeMessage(p, Message(j)).value == Normal(j)
  {
    CleanSurvives(j);
    LossyRoundTrip(p, j);
  }

  /** The same exactly: precisely the values with 32-bit integers and no empty object. */
  lemma ExactRoundTrip(p: Platform, j: Json)
    requires WellFormed(j) && Fits(j)
    requires j == EMPTY || NoEmptyArray(j)
    ensures DecodeMessage(p, Message(j)).Parsed?
    ensures DecodeMessage(p, Message(j)).value == j <==> Faithful(j)
  {
    RoundTrip(p, j);
    FaithfulIsNormal(j);
  }
}
