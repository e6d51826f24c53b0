/** Text in fields between semicolons. */
module Semicolons {
  function IndexOf(s: string, c: char): (i: nat)
    ensures i <= |s| && c !in s[..i] && (i < |s| ==> s[i] == c)
  {
    if s == [] || s[0] == c then 0 else
      var i := IndexOf(s[1..], c);
      assert s[..1 + i] == [s[0]] + s[1..][..i];
      1 + i
  }

  /** The fields of a message, between semicolons. */
  function Split(s: string): (fields: seq<string>)
    ensures fields != [] && forall f :: f in fields ==> ';' !in f
    decreases |s|
  {
    var i := IndexOf(s, ';');
    if i == |s| then [s] else [s[..i]] + Split(s[i + 1..])
  }

  function Join(fields: seq<string>): string
    requires fields != []
  {
    if |fields| == 1 then fields[0] else fields[0] + ";" + Join(fields[1..])
  }

  lemma {:induction false} SplitIsExact(s: string)
    ensures Join(Split(s)) == s
    decreases |s|
  {
    var i := IndexOf(s, ';');
    if i < |s| {
      var first, rest := s[..i], s[i + 1..];
      SplitIsExact(rest);
      SplitAt(s, i);
      JoinTwo(first, Split(rest));
      Halves(s, i);
      hide Split, Join;
    }
  }

  lemma SplitAt(s: string, i: nat)
    requires i == IndexOf(s, ';') && i < |s|
    ensures Split(s) == [s[..i]] + Split(s[i + 1..])
  {
    hide IndexOf;
  }

  lemma JoinTwo(first: string, rest: seq<string>)
    requires rest != []
    ensures Join([first] + rest) == first + ";" + Join(rest)
  {
    assert ([first] + rest)[1..] == rest;
  }

  lemma Halves(s: string, i: nat)
    requires i < |s| && s[i] == ';'
    ensures s == s[..i] + ";" + s[i + 1..]
  {
  }

  lemma {:induction false} IndexOfFirst(f: string, c: char, rest: string)
    requires c !in f
    ensures IndexOf(f + [c] + rest, c) == |f|
  {
    if f != [] {
      IndexOfFirst(f[1..], c, rest);
      assert (f + [c] + rest)[1..] == f[1..] + [c] + rest;
    }
  }

  lemma SplitFirst(f: string, rest: string)
    requires ';' !in f
    ensures Split(f + ";" + rest) == [f] + Split(rest)
  {
    var s := f + ";" + rest;
    IndexOfFirst(f, ';', rest);
    assert s == f + [';'] + rest;
    assert s[..|f|] == f && s[|f| + 1..] == rest;
  }

  lemma NothingToSplit(f: string)
    requires ';' !in f
    ensures Split(f) == [f]
  {
  }

  /** And the only way to cut it: joining fields without semicolons and splitting gives them back. */
  lemma {:induction false} JoinIsExact(fields: seq<string>)
    requires fields != [] && forall f :: f in fields ==> ';' !in f
    ensures Split(Join(fields)) == fields
    decreases |fields|
  {
    hide Split;
    assert fields[0] in fields;
    if |fields| == 1 {
      NothingToSplit(fields[0]);
    } else {
      JoinIsExact(fields[1..]);
      SplitFirst(fields[0], Join(fields[1..]));
    }
  }

  lemma Associative(a: seq<string>, b: seq<string>, c: seq<string>)
    ensures a + b + c == a + (b + c)
  {
  }
}
