/** Bytes, and the fixed-width and minimal-width integer layouts used by the wire formats. */
module Bytes {
  type byte = x: int | 0 <= x < 256

  const TWO_32: nat := 0x1_0000_0000
  const TWO_64: nat := 0x1_0000_0000_0000_0000

  function Pow256(k: nat): (p: nat)
    ensures p > 0
  {
    if k == 0 then 1 else 256 * Pow256(k - 1)
  }

  /** The low `width` bytes of n, most significant first. */
  function BigEndian(n: nat, width: nat): (s: seq<byte>)
    ensures |s| == width
  {
    if width == 0 then [] else BigEndian(n / 256, width - 1) + [n % 256]
  }

  function FromBigEndian(s: seq<byte>): nat
  {
    if s == [] then 0 else FromBigEndian(s[..|s| - 1]) * 256 + s[|s| - 1]
  }

  lemma {:induction false} BigEndianRoundTrip(n: nat, width: nat)
    requires n < Pow256(width)
    ensures FromBigEndian(BigEndian(n, width)) == n
  {
    if width > 0 {
      assert BigEndian(n, width)[..width - 1] == BigEndian(n / 256, width - 1);
      BigEndianRoundTrip(n / 256, width - 1);
    }
  }

  lemma {:induction false} FromBigEndianBound(s: seq<byte>)
    ensures FromBigEndian(s) < Pow256(|s|)
  {
    if s != [] {
      FromBigEndianBound(s[..|s| - 1]);
    }
  }

  lemma PowValues()
    ensures Pow256(1) == 256 && Pow256(2) == 0x1_0000 && Pow256(4) == TWO_32 && Pow256(8) == TWO_64
  {
    assert Pow256(3) == 256 * Pow256(2);
    assert Pow256(5) == 256 * Pow256(4);
    assert Pow256(7) == 256 * Pow256(6);
  }

  lemma TimesMonotone(a: int, b: int, m: nat)
    requires a <= b
    ensures a * m <= b * m
  {
  }

  lemma QuotientUnique(n: nat, m: nat, a: nat)
    requires m > 0 && a * m <= n < a * m + m
    ensures n / m == a
  {
    var q := n / m;
    assert q * m <= n < q * m + m;
    assert (q + 1) * m == q * m + m && (a + 1) * m == a * m + m;
    if q < a {
      TimesMonotone(q + 1, a, m);
    } else if a < q {
      TimesMonotone(a + 1, q, m);
    }
  }

  lemma QuotientTwice(n: nat, p: nat)
    requires p > 0
    ensures n / 256 / p == n / (256 * p)
  {
    var q := n / 256;
    var a := q / p;
    assert a * p <= q < a * p + p;
    assert 256 * (a * p) == a * (256 * p);
    QuotientUnique(n, 256 * p, a);
  }

  /** Each byte by a shift and a mask. */
  lemma {:induction false} BigEndianAt(n: nat, width: nat, i: nat)
    requires i < width
    ensures BigEndian(n, width)[i] == n / Pow256(width - 1 - i) % 256
  {
    if i < width - 1 {
      BigEndianAt(n / 256, width - 1, i);
      QuotientTwice(n, Pow256(width - 2 - i));
    }
  }

  /** The bytes of n, least significant first, without leading zero bytes. */
  function Digits(n: nat): seq<byte>
  {
    if n == 0 then [] else [n % 256] + Digits(n / 256)
  }

  function FromDigits(s: seq<byte>): nat
  {
    if s == [] then 0 else s[0] + 256 * FromDigits(s[1..])
  }

  lemma {:induction false} DigitsRoundTrip(n: nat)
    ensures FromDigits(Digits(n)) == n
  {
    if n > 0 {
      DigitsRoundTrip(n / 256);
      assert Digits(n)[1..] == Digits(n / 256);
    }
  }

  lemma {:induction false} DigitsLength(n: nat, k: nat)
    ensures n < Pow256(k) <==> |Digits(n)| <= k
  {
    if n > 0 && k > 0 {
      DigitsLength(n / 256, k - 1);
    }
  }

  lemma {:induction false} FromDigitsBound(s: seq<byte>)
    ensures FromDigits(s) < Pow256(|s|)
  {
    if s != [] {
      FromDigitsBound(s[1..]);
    }
  }

  lemma {:induction false} FromDigitsSnoc(s: seq<byte>, d: byte)
    ensures FromDigits(s + [d]) == FromDigits(s) + Pow256(|s|) * d
  {
    if s == [] {
      assert s + [d] == [d];
    } else {
      assert (s + [d])[1..] == s[1..] + [d];
      FromDigitsSnoc(s[1..], d);
      assert Pow256(|s|) == 256 * Pow256(|s[1..]|);
      assert 256 * (Pow256(|s[1..]|) * d) == Pow256(|s|) * d;
    }
  }

  /** Decimal text, as ASCII codes. */
  function Decimal(n: nat): (s: seq<byte>)
    ensures s != []
  {
    if n < 10 then [48 + n] else Decimal(n / 10) + [48 + n % 10]
  }

  function SignedDecimal(i: int): seq<byte>
  {
    if i < 0 then [45] + Decimal(-i) else Decimal(i)
  }

  function DecimalValue(s: seq<byte>): int
  {
    if s == [] then 0 else DecimalValue(s[..|s| - 1]) * 10 + (s[|s| - 1] as int - 48)
  }

  lemma {:induction false} DecimalRoundTrip(n: nat)
    ensures DecimalValue(Decimal(n)) == n
  {
    if n < 10 {
      assert Decimal(n)[..0] == [];
    } else {
      assert Decimal(n)[..|Decimal(n)| - 1] == Decimal(n / 10);
      DecimalRoundTrip(n / 10);
    }
  }

  /** s is written in data from position at on. */
  predicate Occurs(data: seq<byte>, at: nat, s: seq<byte>)
  {
    at + |s| <= |data| && data[at..at + |s|] == s
  }

  lemma OccursSplit(data: seq<byte>, at: nat, a: seq<byte>, b: seq<byte>)
    ensures Occurs(data, at, a + b) <==> Occurs(data, at, a) && Occurs(data, at + |a|, b)
  {
    if Occurs(data, at, a + b) {
      assert data[at..at + |a|] == (a + b)[..|a|] == a;
      assert data[at + |a|..at + |a| + |b|] == (a + b)[|a|..] == b;
    }
    if Occurs(data, at, a) && Occurs(data, at + |a|, b) {
      assert data[at..at + |a + b|] == data[at..at + |a|] + data[at + |a|..at + |a| + |b|];
    }
  }
}
