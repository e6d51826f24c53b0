/** Counting and cutting text by code points: UTF-8 as in section 3 of RFC 3629, told apart by leading bytes. */
module Utf8Text {
  import opened Wrappers
  import opened Bytes

  /** Whether these bytes encode one code point other than NUL, by the table of the standard. */
  predicate IsChar(c: seq<byte>)
  {
    || (|c| == 1 && 0x01 <= c[0] <= 0x7F)
    || (|c| == 2 && 0xC2 <= c[0] <= 0xDF && IsTail(c[1]))
    || (|c| == 3 && 0xE0 <= c[0] <= 0xEF && IsTail(c[1]) && IsTail(c[2])
        && (c[0] == 0xE0 ==> c[1] >= 0xA0) && (c[0] == 0xED ==> c[1] <= 0x9F))
    || (|c| == 4 && 0xF0 <= c[0] <= 0xF4 && IsTail(c[1]) && IsTail(c[2]) && IsTail(c[3])
        && (c[0] == 0xF0 ==> c[1] >= 0x90) && (c[0] == 0xF4 ==> c[1] <= 0x8F))
  }

  predicate IsTail(b: byte)
  {
    0x80 <= b <= 0xBF
  }

  /** A code point: up to 10FFFF, without the halves of surrogate pairs, and NUL apart. */
  predicate IsCodePoint(n: nat)
  {
    0 < n <= 0x10FFFF && !(0xD800 <= n <= 0xDFFF)
  }

  /** How the standard spreads its bits over the bytes. */
  function Encoded(n: nat): (c: seq<byte>)
    requires IsCodePoint(n)
  {
    if n < 0x80 then [n]
    else if n < 0x800 then [0xC0 + n / 64, 0x80 + n % 64]
    else if n < 0x10000 then [0xE0 + n / 4096, 0x80 + n / 64 % 64, 0x80 + n % 64]
    else [0xF0 + n / 262144, 0x80 + n / 4096 % 64, 0x80 + n / 64 % 64, 0x80 + n % 64]
  }

  /** The number those bits make. */
  function CodeOf(c: seq<byte>): int
    requires IsChar(c)
  {
    if |c| == 1 then c[0]
    else if |c| == 2 then 64 * (c[0] as int - 0xC0) + (c[1] as int - 0x80)
    else if |c| == 3 then 4096 * (c[0] as int - 0xE0) + 64 * (c[1] as int - 0x80) + (c[2] as int - 0x80)
    else 262144 * (c[0] as int - 0xF0) + 4096 * (c[1] as int - 0x80) + 64 * (c[2] as int - 0x80) + (c[3] as int - 0x80)
  }

  /** The table takes exactly the encodings of code points. */
  lemma TableIsExact(c: seq<byte>)
    ensures IsChar(c) <==> exists n :: IsCodePoint(n) && Encoded(n) == c
  {
    if IsChar(c) {
      CharIsEncoded(c);
    }
    if n :| IsCodePoint(n) && Encoded(n) == c {
      EncodedIsChar(n);
    }
    hide IsChar, Encoded, IsCodePoint;
  }

  lemma CharIsEncoded(c: seq<byte>)
    requires IsChar(c)
    ensures var n := CodeOf(c); n >= 0 && IsCodePoint(n) && Encoded(n) == c
  {
    if |c| == 2 {
      Places(c[0] - 0xC0, c[1] - 0x80);
    } else if |c| == 3 {
      ThreeIsEncoded(c);
    } else if |c| == 4 {
      FourIsEncoded(c);
    }
  }

  lemma Places(q: nat, r: nat)
    requires r < 64
    ensures (64 * q + r) / 64 == q && (64 * q + r) % 64 == r
  {
  }

  lemma Quotients(n: nat)
    ensures n / 4096 == n / 64 / 64 && n / 262144 == n / 64 / 64 / 64
  {
    QuotientOf(n, 64);
    QuotientOf(n, 4096);
    QuotientOf(n / 64, 64);
  }

  lemma QuotientOf(n: nat, p: nat)
    requires p == 64 || p == 4096
    ensures n / (64 * p) == n / 64 / p
  {
  }

  lemma ThreeIsEncoded(c: seq<byte>)
    requires IsChar(c) && |c| == 3
    ensures var n := CodeOf(c); n >= 0 && IsCodePoint(n) && Encoded(n) == c
  {
    var x: nat, y: nat, z: nat := c[0] - 0xE0, c[1] - 0x80, c[2] - 0x80;
    var n := CodeOf(c);
    assert n == 64 * (64 * x + y) + z;
    Places(64 * x + y, z);
    Places(x, y);
    Quotients(n);
    assert 0x800 <= n < 0x10000 && !(0xD800 <= n <= 0xDFFF);
  }

  lemma FourIsEncoded(c: seq<byte>)
    requires IsChar(c) && |c| == 4
    ensures var n := CodeOf(c); n >= 0 && IsCodePoint(n) && Encoded(n) == c
  {
    var x: nat, y: nat, z: nat, w: nat := c[0] - 0xF0, c[1] - 0x80, c[2] - 0x80, c[3] - 0x80;
    var n := CodeOf(c);
    assert n == 64 * (64 * (64 * x + y) + z) + w;
    Places(64 * (64 * x + y) + z, w);
    Places(64 * x + y, z);
    Places(x, y);
    Quotients(n);
    assert 0x10000 <= n <= 0x10FFFF;
  }

  lemma EncodedIsChar(n: nat)
    requires IsCodePoint(n)
    ensures IsChar(Encoded(n))
  {
  }

  predicate AreChars(cs: seq<seq<byte>>)
  {
    forall i :: 0 <= i < |cs| ==> IsChar(cs[i])
  }

  function Flat(cs: seq<seq<byte>>): seq<byte>
  {
    if cs == [] then [] else Flat(cs[..|cs| - 1]) + cs[|cs| - 1]
  }

  // ----- Where characters begin -----

  lemma {:induction false} FlatAppend(a: seq<seq<byte>>, b: seq<seq<byte>>)
    ensures Flat(a + b) == Flat(a) + Flat(b)
    decreases |b|
  {
    if b == [] {
      assert a + b == a && Flat(a) + [] == Flat(a);
    } else {
      var init := b[..|b| - 1];
      FlatAppend(a, init);
      assert (a + b)[..|a + b| - 1] == a + init;
      assert Flat(a) + (Flat(init) + b[|b| - 1]) == Flat(a) + Flat(init) + b[|b| - 1];
    }
  }

  /** Where the k-th character begins. */
  function Start(cs: seq<seq<byte>>, k: nat): nat
    requires k <= |cs|
  {
    |Flat(cs[..k])|
  }

  lemma CharAt(cs: seq<seq<byte>>, k: nat)
    requires AreChars(cs) && k < |cs|
    ensures Start(cs, k + 1) == Start(cs, k) + |cs[k]| <= |Flat(cs)|
    ensures Flat(cs)[Start(cs, k)] == cs[k][0] && IsChar(cs[k])
    ensures Flat(cs)[..Start(cs, k)] == Flat(cs[..k])
  {
    assert cs[..k + 1][..k] == cs[..k];
    assert cs == cs[..k] + cs[k..] && cs == cs[..k + 1] + cs[k + 1..];
    FlatAppend(cs[..k], cs[k..]);
    FlatAppend(cs[..k + 1], cs[k + 1..]);
    hide AreChars, IsChar;
    var head := Flat(cs[..k]);
    assert Flat(cs) == head + cs[k] + Flat(cs[k + 1..]);
    assert IsChar(cs[k]) by { assert AreChars(cs); }
    NotEmpty(cs[k]);
  }

  lemma NotEmpty(c: seq<byte>)
    requires IsChar(c)
    ensures |c| > 0
  {
  }

  lemma Ends(cs: seq<seq<byte>>)
    ensures cs[..0] == [] && Start(cs, 0) == 0 && cs[..|cs|] == cs && Start(cs, |cs|) == |Flat(cs)|
  {
  }

  lemma {:induction false} StartsGrow(cs: seq<seq<byte>>, j: nat, k: nat)
    requires AreChars(cs) && j <= k <= |cs|
    ensures Start(cs, k) >= Start(cs, j) + (k - j)
    decreases k
  {
    if j < k {
      StartsGrow(cs, j, k - 1);
      CharAt(cs, k - 1);
      NotEmpty(cs[k - 1]);
    }
  }

  /** The text ends where its last character ends: before that point there is one more. */
  lemma More(cs: seq<seq<byte>>, k: nat)
    requires AreChars(cs) && k <= |cs|
    ensures Start(cs, k) < |Flat(cs)| <==> k < |cs|
  {
    Ends(cs);
    StartsGrow(cs, k, |cs|);
  }

  lemma Within(cs: seq<seq<byte>>, k: nat)
    requires AreChars(cs) && k <= |cs|
    ensures Start(cs, k) <= |Flat(cs)|
  {
    Ends(cs);
    StartsGrow(cs, k, |cs|);
  }

  predicate IsAscii(b: byte)
  {
    0 < b < 0x80
  }

  /** The steps the count takes for a byte that is not ASCII. */
  function Step(b: byte): nat
  {
    if b / 16 == 0xE then 3 else if b / 16 == 0xF then 4 else 2
  }

  lemma StepIsLength(c: seq<byte>)
    requires IsChar(c)
    ensures |c| == if IsAscii(c[0]) then 1 else Step(c[0])
    ensures c[0] > 0
  {
  }

  // ----- Counting -----

  /** Runs over ASCII bytes; each is a character of its own. */
  method SkipAscii(s: seq<byte>, from: nat, ghost cs: seq<seq<byte>>, ghost k: nat) returns (i: nat)
    requires AreChars(cs) && s == Flat(cs) && k <= |cs| && from == Start(cs, k)
    ensures from <= i && k + (i - from) <= |cs| && i == Start(cs, k + (i - from))
    ensures i == |s| || (i < |s| && !IsAscii(s[i]))
    ensures from < |s| && IsAscii(s[from]) ==> i > from
  {
    i := from;
    Within(cs, k);
    while i < |s| && IsAscii(s[i])
      invariant from <= i && k + (i - from) <= |cs| && i == Start(cs, k + (i - from)) && i <= |s|
    {
      hide AreChars, IsChar, Flat, Start;
      More(cs, k + (i - from));
      CharAt(cs, k + (i - from));
      StepIsLength(cs[k + (i - from)]);
      i := i + 1;
      Within(cs, k + (i - from));
    }
  }

  /** Counts the code points of well-formed text. */
  method Utf8Len(s: seq<byte>, ghost cs: seq<seq<byte>>) returns (count: nat)
    requires AreChars(cs) && s == Flat(cs)
    ensures count == |cs|
  {
    if s == [] {
      Ends(cs);
      More(cs, 0);
      return 0;
    }
    Ends(cs);
    var before := 0;
    var i := SkipAscii(s, 0, cs, 0);
    count := i - before;
    More(cs, count);
    hide AreChars, IsChar, Flat, Start, Step, IsAscii;
    while i < |s|
      invariant count <= |cs| && i == Start(cs, count) && i <= |s|
      decreases |s| - i
    {
      More(cs, count);
      CharAt(cs, count);
      StepIsLength(cs[count]);
      if IsAscii(s[i]) {
        before := i;
        i := SkipAscii(s, i, cs, count);
        count := count + (i - before);
        More(cs, count);
        Within(cs, count);
      } else {
        i := i + Step(s[i]);
        count := count + 1;
      }
    }
    More(cs, count);
  }

  /** The bytes that follow a leading byte, or none if it is no leading byte. */
  function Following(b: byte): Option<nat>
  {
    if b < 0x80 then Some(0)
    else if b / 32 == 6 then Some(1)
    else if b / 16 == 0xE then Some(2)
    else if b / 8 == 0x1E then Some(3)
    else None
  }

  lemma FollowingIsLength(c: seq<byte>)
    requires IsChar(c)
    ensures Following(c[0]) == Some(|c| - 1)
  {
  }

  function Min(a: nat, b: nat): nat
  {
    if a < b then a else b
  }

  /** The first code points of well-formed text, all of them if there are not so many. */
  method Utf8Prefix(s: seq<byte>, n: nat, ghost cs: seq<seq<byte>>) returns (r: seq<byte>)
    requires AreChars(cs) && s == Flat(cs)
    ensures r == Flat(cs[..Min(n, |cs|)])
  {
    Ends(cs);
    if n == 0 {
      return [];
    }
    var length := Utf8Len(s, cs);
    if n >= length {
      return s;
    }
    var i, q, max := 0, 0, 0;
    hide AreChars, IsChar, Flat, Start, Following;
    while i < |s|
      invariant q <= |cs| && i == Start(cs, q) && i <= |s|
      invariant q == 0 ==> max == 0
      invariant q > 0 ==> max == Start(cs, if q - 1 <= n then q - 1 else n)
      decreases |s| - i
    {
      More(cs, q);
      CharAt(cs, q);
      FollowingIsLength(cs[q]);
      NotEmpty(cs[q]);
      if q <= n {
        max := i;
      }
      var following := Following(s[i]);
      if following.None? {
        return [];
      }
      i := i + following.value + 1;
      q := q + 1;
    }
    More(cs, q);
    if q <= n {
      max := i;
    }
    CharAt(cs, n);
    return s[..max];
  }

  // ----- A text of limited length -----

  datatype Result = Text(s: seq<byte>) | TooShort

  /** Text that is too short is refused, text that is too long is cut; what comes back is as long as allowed. */
  method Validate(s: seq<byte>, least: nat, most: nat, ghost cs: seq<seq<byte>>) returns (r: Result)
    requires AreChars(cs) && s == Flat(cs)
    ensures r.TooShort? <==> |cs| < least
    ensures r.Text? ==> r.s == Flat(cs[..Min(most, |cs|)])
    ensures r.Text? && least <= most ==> least <= |cs[..Min(most, |cs|)]| <= most
  {
    Ends(cs);
    var length := Utf8Len(s, cs);
    if length < least {
      return TooShort;
    } else if length > most {
      var cut := Utf8Prefix(s, most, cs);
      return Text(cut);
    }
    return Text(s);
  }

  // ----- Only one way to read it -----

  lemma {:induction false} FlatFirst(cs: seq<seq<byte>>)
    requires cs != []
    ensures Flat(cs) == cs[0] + Flat(cs[1..])
  {
    assert cs == [cs[0]] + cs[1..];
    FlatAppend([cs[0]], cs[1..]);
    Ends([cs[0]]);
    assert Flat([cs[0]]) == Flat([cs[0]][..0]) + cs[0] == cs[0];
  }

  lemma SameFirst(a: seq<byte>, b: seq<byte>, x: seq<byte>, y: seq<byte>)
    requires IsChar(a) && IsChar(b) && a + x == b + y
    ensures a == b && x == y
  {
    StepIsLength(a);
    StepIsLength(b);
    assert (a + x)[0] == a[0] && (b + y)[0] == b[0];
    assert a == (a + x)[..|a|] && b == (b + y)[..|b|];
    assert x == (a + x)[|a|..] && y == (b + y)[|b|..];
  }

  /** Well-formed text has one reading, so the count is of the text and not of a way to cut it. */
  lemma {:induction false} OneReading(cs: seq<seq<byte>>, ds: seq<seq<byte>>)
    requires AreChars(cs) && AreChars(ds) && Flat(cs) == Flat(ds)
    ensures cs == ds
    decreases |cs|
  {
    More(cs, 0);
    More(ds, 0);
    Ends(cs);
    Ends(ds);
    if cs != [] {
      FlatFirst(cs);
      FlatFirst(ds);
      SameFirst(cs[0], ds[0], Flat(cs[1..]), Flat(ds[1..]));
      OneReading(cs[1..], ds[1..]);
      assert cs == [cs[0]] + cs[1..] && ds == [ds[0]] + ds[1..];
    }
  }
}
