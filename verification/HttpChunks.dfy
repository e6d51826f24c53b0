/**
 The body of an HTTP response as the client collects it: the chunked transfer coding (RFC 9112, section 7.1) and plain
 content of a known length, as a machine over what has arrived.
 */
module HttpChunks {
  import opened Bytes

  const CRLF: seq<byte> := [13, 10]
  const INT_MAX: int := 0x7fff_ffff

  // ----- The size line, as std::stoi reads it in base 16 -----

  datatype Parsed = Value(v: int) | Invalid

  predicate IsSpace(b: byte)
  {
    b == 32 || 9 <= b <= 13
  }

  predicate IsHex(b: byte)
  {
    48 <= b <= 57 || 65 <= b <= 70 || 97 <= b <= 102
  }

  function HexDigit(b: byte): (d: nat)
    requires IsHex(b)
    ensures d < 16
  {
    if b <= 57 then b - 48 else if b <= 70 then b - 55 else b - 87
  }

  function SkipSpace(s: seq<byte>): seq<byte>
  {
    if s != [] && IsSpace(s[0]) then SkipSpace(s[1..]) else s
  }

  /** The leading run of hexadecimal digits. */
  function HexRun(s: seq<byte>): (r: seq<byte>)
    ensures r <= s && forall i :: 0 <= i < |r| ==> IsHex(r[i])
    ensures |r| < |s| ==> !IsHex(s[|r|])
  {
    if s != [] && IsHex(s[0]) then [s[0]] + HexRun(s[1..]) else []
  }

  function HexNumber(s: seq<byte>): nat
    requires forall i :: 0 <= i < |s| ==> IsHex(s[i])
  {
    if s == [] then 0 else HexNumber(s[..|s| - 1]) * 16 + HexDigit(s[|s| - 1])
  }

  predicate HasPrefix0x(s: seq<byte>)
  {
    |s| >= 3 && s[0] == 48 && (s[1] == 88 || s[1] == 120) && IsHex(s[2])
  }

  function StoiHex(line: seq<byte>): Parsed
  {
    var s := SkipSpace(line);
    var signed := s != [] && (s[0] == 45 || s[0] == 43);
    FromRun(if signed then s[1..] else s, s != [] && s[0] == 45)
  }

  function FromRun(t: seq<byte>, negative: bool): Parsed
  {
    var digits := HexRun(if HasPrefix0x(t) then t[2..] else t);
    if digits == [] then Invalid
    else
      var v := if negative then -(HexNumber(digits) as int) else HexNumber(digits);
      if -INT_MAX - 1 <= v <= INT_MAX then Value(v) else Invalid
  }

  /** The hexadecimal digits, in both cases of letters. */
  predicate IsDigit(b: byte, d: nat)
  {
    d < 16 && (b == "0123456789abcdef"[d] as int || b == "0123456789ABCDEF"[d] as int)
  }

  /** A text writes a number in base 16: its last digit is the remainder, and those before write the quotient. */
  predicate Writes(s: seq<byte>, n: nat)
  {
    s != [] && IsDigit(s[|s| - 1], n % 16) && if |s| == 1 then n < 16 else Writes(s[..|s| - 1], n / 16)
  }

  /** Every such text is read as its number, whatever the case of its letters and the zeros in front. */
  lemma {:induction false} WritesIs(s: seq<byte>, n: nat)
    requires Writes(s, n)
    ensures (forall i :: 0 <= i < |s| ==> IsHex(s[i])) && HexNumber(s) == n
  {
    var init := s[..|s| - 1];
    DigitIs(s[|s| - 1], n % 16);
    if |s| == 1 {
      assert init == [];
    } else {
      WritesIs(init, n / 16);
      assert forall i :: 0 <= i < |init| ==> s[i] == init[i];
    }
    hide HexDigit, IsHex;
  }

  lemma DigitIs(b: byte, d: nat)
    requires IsDigit(b, d)
    ensures IsHex(b) && HexDigit(b) == d
  {
  }

  /** And there is such a text for every number. */
  lemma {:induction false} HexTextWrites(n: nat)
    ensures Writes(HexText(n), n)
  {
    LowerDigit(n % 16);
    if n >= 16 {
      HexTextWrites(n / 16);
      assert HexText(n)[..|HexText(n)| - 1] == HexText(n / 16);
    }
    hide IsDigit;
  }

  lemma LowerDigit(d: nat)
    requires d < 16
    ensures IsDigit(if d < 10 then 48 + d else 87 + d, d)
  {
  }

  /** What may follow the digits: nothing, or an extension. */
  predicate IsExtension(s: seq<byte>)
  {
    s == [] || s[0] == 59 || s[0] == 32 || s[0] == 9
  }

  /** A size line of RFC 9112: digits in either case, then nothing or an extension. */
  lemma SizeLine(digits: seq<byte>, n: nat, extension: seq<byte>)
    requires Writes(digits, n) && IsExtension(extension)
    ensures StoiHex(digits + extension) == if n <= 2147483647 then Value(n) else Invalid
  {
    WritesIs(digits, n);
    HexRunExact(digits, extension);
    SizeLineFront(digits, extension);
    hide HexNumber, HexRun, SkipSpace, HasPrefix0x, IsHex, Writes;
  }

  /** What else std::stoi takes: white space, a sign and 0x in front, and anything behind. */
  lemma StoiReads(spaces: seq<byte>, sign: seq<byte>, prefix: seq<byte>, digits: seq<byte>, n: nat, rest: seq<byte>)
    requires forall i :: 0 <= i < |spaces| ==> spaces[i] in {9, 10, 11, 12, 13, 32}
    requires sign in {[], [43], [45]} && prefix in {[], [48, 120], [48, 88]}
    requires Writes(digits, n) && (rest == [] || forall d :: 0 <= d < 16 ==> !IsDigit(rest[0], d))
    requires prefix == [] && digits == [48] && |rest| >= 2 && rest[0] in {88, 120} ==>
               forall d :: 0 <= d < 16 ==> !IsDigit(rest[1], d)
    ensures var v := if sign == [45] then -(n as int) else n;
            StoiHex(spaces + (sign + (prefix + (digits + rest))))
            == if -2147483648 <= v <= 2147483647 then Value(v) else Invalid
  {
    var after := prefix + (digits + rest);
    WritesIs(digits, n);
    NoDigit(rest);
    HexRunExact(digits, rest);
    SkipsSpaces(spaces, sign + after);
    PrefixIs(prefix, digits, rest);
    FirstIs(prefix, digits, rest);
    hide HexNumber, HexRun, HasPrefix0x, IsHex, Writes, IsDigit, StoiHex;
    SignIs(sign, after);
    Signed(spaces + (sign + after), sign, after);
  }

  /** And a line that begins with none of these is no number. */
  lemma NoNumber(line: seq<byte>)
    requires line == [] || (line[0] !in {9, 10, 11, 12, 13, 32, 43, 45} && forall d :: 0 <= d < 16 ==> !IsDigit(line[0], d))
    ensures StoiHex(line) == Invalid
  {
    NoDigit(line);
    hide IsDigit;
  }

  lemma SignIs(sign: seq<byte>, after: seq<byte>)
    requires sign in {[], [43], [45]} && SkipSpace(after) == after
    ensures SkipSpace(sign + after) == sign + after
  {
    if sign == [] { assert sign + after == after; } else { assert (sign + after)[0] == sign[0]; }
  }

  lemma Signed(line: seq<byte>, sign: seq<byte>, after: seq<byte>)
    requires SkipSpace(line) == sign + after && sign in {[], [43], [45]}
    requires after != [] && after[0] != 43 && after[0] != 45
    ensures StoiHex(line) == FromRun(after, sign == [45])
  {
    hide FromRun, SkipSpace;
    if sign == [] {
      assert sign + after == after;
    } else {
      assert (sign + after)[0] == sign[0] && (sign + after)[1..] == after;
    }
  }

  lemma NoDigit(rest: seq<byte>)
    requires rest == [] || forall d :: 0 <= d < 16 ==> !IsDigit(rest[0], d)
    ensures rest == [] || !IsHex(rest[0])
  {
    if rest != [] { OneDigit(rest[0]); }
  }

  lemma OneDigit(b: byte)
    ensures IsHex(b) ==> exists d :: 0 <= d < 16 && IsDigit(b, d)
  {
    if IsHex(b) { assert IsDigit(b, HexDigit(b)); }
  }

  lemma {:induction false} SkipsSpaces(spaces: seq<byte>, s: seq<byte>)
    requires forall i :: 0 <= i < |spaces| ==> spaces[i] in {9, 10, 11, 12, 13, 32}
    ensures SkipSpace(spaces + s) == SkipSpace(s)
  {
    if spaces == [] {
      assert spaces + s == s;
    } else {
      assert (spaces + s)[1..] == spaces[1..] + s;
      SkipsSpaces(spaces[1..], s);
    }
  }

  lemma PrefixIs(prefix: seq<byte>, digits: seq<byte>, rest: seq<byte>)
    requires prefix in {[], [48, 120], [48, 88]} && digits != [] && forall i :: 0 <= i < |digits| ==> IsHex(digits[i])
    requires prefix == [] && digits == [48] && |rest| >= 2 && rest[0] in {88, 120} ==>
               forall d :: 0 <= d < 16 ==> !IsDigit(rest[1], d)
    ensures var t := prefix + (digits + rest);
            (if HasPrefix0x(t) then t[2..] else t) == digits + rest
  {
    var line := digits + rest;
    assert line[0] == digits[0];
    if prefix == [] {
      assert prefix + line == line;
      if |digits| >= 2 { assert line[1] == digits[1]; } else if |rest| >= 2 {
        assert digits == [digits[0]] && line[1] == rest[0] && line[2] == rest[1];
        OneDigit(rest[1]);
      }
    } else {
      assert (prefix + line)[2] == line[0] && (prefix + line)[2..] == line;
    }
  }

  lemma FirstIs(prefix: seq<byte>, digits: seq<byte>, rest: seq<byte>)
    requires prefix in {[], [48, 120], [48, 88]} && digits != [] && forall i :: 0 <= i < |digits| ==> IsHex(digits[i])
    ensures var t := prefix + (digits + rest); t != [] && t[0] != 43 && t[0] != 45 && SkipSpace(t) == t
  {
    var t := prefix + (digits + rest);
    assert t[0] == if prefix == [] then digits[0] else prefix[0];
  }

  lemma SizeLineFront(digits: seq<byte>, extension: seq<byte>)
    requires digits != [] && forall i :: 0 <= i < |digits| ==> IsHex(digits[i])
    requires extension == [] || extension[0] == 59 || extension[0] == 32 || extension[0] == 9
    ensures var line := digits + extension;
            line[0] != 45 && line[0] != 43 && SkipSpace(line) == line && !HasPrefix0x(line)
  {
    var line := digits + extension;
    assert line[0] == digits[0];
    if |digits| >= 2 {
      assert line[1] == digits[1];
    } else if extension != [] {
      assert line[1] == extension[0];
    }
  }

  lemma {:induction false} HexRunExact(digits: seq<byte>, extension: seq<byte>)
    requires forall i :: 0 <= i < |digits| ==> IsHex(digits[i])
    requires extension == [] || !IsHex(extension[0])
    ensures HexRun(digits + extension) == digits
  {
    if digits != [] {
      assert (digits + extension)[1..] == digits[1..] + extension;
      HexRunExact(digits[1..], extension);
    } else {
      assert digits + extension == extension;
    }
  }

  /** A number in lower-case hexadecimal. */
  function HexText(n: nat): (s: seq<byte>)
    ensures s != [] && forall i :: 0 <= i < |s| ==> IsHex(s[i])
    decreases n
  {
    var d: byte := if n % 16 < 10 then 48 + n % 16 else 87 + n % 16;
    if n < 16 then [d] else HexText(n / 16) + [d]
  }

  // ----- The machine -----

  datatype State = Content | Done | ChunkLen | ChunkTrailer | ChunkLast | ChunkContent

  datatype Conn = Conn(
    state: State,
    body: seq<byte>,
    chunkSize: nat,
    chunkReceive: nat,
    contentLength: nat,
    keepalive: bool,
    buffer: seq<byte>
  ) {
    predicate Valid()
    {
      state.ChunkContent? ==> chunkReceive <= chunkSize
    }

    function More(bytes: seq<byte>): Conn
    {
      this.(buffer := buffer + bytes)
    }
  }

  predicate StartsCrlf(s: seq<byte>)
  {
    |s| >= 2 && s[0] == 13 && s[1] == 10
  }

  /** Where the first line break starts; the length of s when there is none. */
  function FindCrlf(s: seq<byte>): (i: nat)
    ensures i <= |s|
    ensures i < |s| ==> i + 2 <= |s| && StartsCrlf(s[i..])
  {
    if s == [] then 0 else if StartsCrlf(s) then 0 else
      var i := FindCrlf(s[1..]);
      assert i < |s[1..]| ==> s[1..][i..] == s[i + 1..];
      1 + i
  }

  /** One pass of the loop: it goes round again, or waits for more bytes, or is finished with the connection. */
  datatype Pass = Again(c: Conn) | Wait(c: Conn) | Over(c: Conn)

  function Step(c: Conn): (p: Pass)
    requires c.Valid()
    ensures p.c.Valid() && |p.c.buffer| <= |c.buffer|
    ensures p.Again? ==> |p.c.buffer| < |c.buffer| || (c.state.ChunkContent? && p.c.state.ChunkTrailer?)
  {
    match c.state
    case ChunkContent =>
      var n := if c.chunkReceive + |c.buffer| > c.chunkSize then c.chunkSize - c.chunkReceive else |c.buffer|;
      var d := c.(body := c.body + c.buffer[..n], chunkReceive := c.chunkReceive + n, buffer := c.buffer[n..]);
      if d.chunkReceive >= d.chunkSize then Again(d.(state := ChunkTrailer)) else Wait(d)
    case ChunkTrailer =>
      if StartsCrlf(c.buffer) then Again(c.(state := ChunkLen, buffer := c.buffer[2..])) else Wait(c)
    case ChunkLast =>
      if StartsCrlf(c.buffer) then Over(c.(state := Done)) else Wait(c)
    case ChunkLen =>
      var i := FindCrlf(c.buffer);
      if i == |c.buffer| then Wait(c)
      else
        var d := c.(chunkReceive := 0, buffer := c.buffer[i + 2..]);
        match StoiHex(c.buffer[..i]) {
          case Invalid => Over(d.(keepalive := false))
          case Value(v) =>
            if v == 0 then Again(d.(state := ChunkLast, chunkSize := 2))
            else Again(d.(state := ChunkContent, chunkSize := v % TWO_64))
        }
    case Content =>
      var d := c.(body := c.body + c.buffer, buffer := []);
      if |d.body| >= d.contentLength then Over(d.(state := Done)) else Wait(d)
    case Done => Over(c)
  }

  /** The loop: until a pass asks for more bytes or ends the connection. */
  function Pump(c: Conn): (p: Pass)
    requires c.Valid()
    ensures !p.Again? && p.c.Valid()
    decreases |c.buffer|, c.state == ChunkContent
  {
    var p := Step(c);
    if p.Again? then Pump(p.c) else p
  }

  /** Reads handled one after the other, until one of them ends the connection. */
  function Feed(c: Conn, segments: seq<seq<byte>>): (p: Pass)
    requires c.Valid()
    ensures !p.Again? && p.c.Valid()
    decreases |segments|
  {
    if segments == [] then Wait(c)
    else
      var p := Pump(c.More(segments[0]));
      if p.Over? then p else Feed(p.c, segments[1..])
  }

  function Joined(segments: seq<seq<byte>>): seq<byte>
  {
    if segments == [] then [] else segments[0] + Joined(segments[1..])
  }

  predicate Chunking(state: State)
  {
    !state.Content?
  }

  // ----- Cuts do not matter -----

  lemma {:induction false} FindCrlfStable(s: seq<byte>, more: seq<byte>)
    ensures FindCrlf(s) < |s| ==> FindCrlf(s + more) == FindCrlf(s)
  {
    if s != [] && FindCrlf(s) < |s| && !StartsCrlf(s) {
      assert (s + more)[1..] == s[1..] + more;
      FindCrlfStable(s[1..], more);
      assert |s| >= 2;
    }
  }

  /** A pass over more bytes does what it did over fewer, or resumes where it waited. */
  lemma StepMore(c: Conn, more: seq<byte>)
    requires c.Valid() && Chunking(c.state)
    ensures match Step(c)
            case Again(d) => Step(c.More(more)) == Again(d.More(more))
            case Over(d) => Step(c.More(more)) == Over(d.More(more))
            case Wait(d) => Step(c.More(more)) == Step(d.More(more))
  {
    hide StoiHex;
    var b := c.buffer;
    match c.state
    case ChunkContent => ContentMore(c, more);
    case ChunkTrailer => if |b| >= 2 { Split(b, more, 2); }
    case ChunkLast =>
    case ChunkLen => LenMore(c, more);
    case Done =>
  }

  lemma LenMore(c: Conn, more: seq<byte>)
    requires c.Valid() && c.state.ChunkLen?
    ensures match Step(c)
            case Again(d) => Step(c.More(more)) == Again(d.More(more))
            case Over(d) => Step(c.More(more)) == Over(d.More(more))
            case Wait(d) => Step(c.More(more)) == Step(d.More(more))
  {
    hide StoiHex;
    var i := FindCrlf(c.buffer);
    FindCrlfStable(c.buffer, more);
    if i < |c.buffer| {
      Split(c.buffer, more, i);
      Split(c.buffer, more, i + 2);
    }
  }

  lemma ContentMore(c: Conn, more: seq<byte>)
    requires c.Valid() && c.state.ChunkContent?
    ensures match Step(c)
            case Again(d) => Step(c.More(more)) == Again(d.More(more))
            case Over(d) => Step(c.More(more)) == Over(d.More(more))
            case Wait(d) => Step(c.More(more)) == Step(d.More(more))
  {
    hide Step;
    var b, left := c.buffer, c.chunkSize - c.chunkReceive;
    if |b| >= left {
      ContentFull(c);
      ContentFull(c.More(more));
      Split(b, more, left);
    } else {
      ContentShort(c);
      ContentResumes(c, more);
    }
  }

  lemma ContentResumes(c: Conn, more: seq<byte>)
    requires c.Valid() && c.state.ChunkContent? && |c.buffer| < c.chunkSize - c.chunkReceive
    ensures Step(c.More(more))
         == Step(c.(body := c.body + c.buffer, chunkReceive := c.chunkReceive + |c.buffer|, buffer := [] + more))
  {
    hide Step;
    assert [] + more == more;
    if |more| >= c.chunkSize - c.chunkReceive - |c.buffer| {
      ResumesFull(c, more);
    } else {
      ResumesShort(c, more);
    }
  }

  lemma ResumesFull(c: Conn, more: seq<byte>)
    requires c.Valid() && c.state.ChunkContent? && |c.buffer| < c.chunkSize - c.chunkReceive <= |c.buffer| + |more|
    ensures Step(c.More(more))
         == Step(c.(body := c.body + c.buffer, chunkReceive := c.chunkReceive + |c.buffer|, buffer := more))
  {
    hide Step;
    var b, k := c.buffer, c.chunkSize - c.chunkReceive - |c.buffer|;
    ContentFull(c.More(more));
    ContentFull(c.(body := c.body + b, chunkReceive := c.chunkReceive + |b|, buffer := more));
    SplitLater(b, more, k);
    Associative(c.body, b, more[..k]);
  }

  lemma ResumesShort(c: Conn, more: seq<byte>)
    requires c.Valid() && c.state.ChunkContent? && |c.buffer| + |more| < c.chunkSize - c.chunkReceive
    ensures Step(c.More(more))
         == Step(c.(body := c.body + c.buffer, chunkReceive := c.chunkReceive + |c.buffer|, buffer := more))
  {
    hide Step;
    ContentShort(c.More(more));
    ContentShort(c.(body := c.body + c.buffer, chunkReceive := c.chunkReceive + |c.buffer|, buffer := more));
    Associative(c.body, c.buffer, more);
  }

  lemma Associative(a: seq<byte>, b: seq<byte>, c: seq<byte>)
    ensures a + b + c == a + (b + c)
  {
  }

  lemma SplitLater(b: seq<byte>, more: seq<byte>, k: nat)
    requires k <= |more|
    ensures (b + more)[..|b| + k] == b + more[..k] && (b + more)[|b| + k..] == more[k..]
  {
  }

  lemma Split(b: seq<byte>, more: seq<byte>, k: nat)
    requires k <= |b|
    ensures (b + more)[..k] == b[..k] && (b + more)[k..] == b[k..] + more
  {
  }

  lemma ContentFull(c: Conn)
    requires c.Valid() && c.state.ChunkContent? && |c.buffer| >= c.chunkSize - c.chunkReceive
    ensures var left := c.chunkSize - c.chunkReceive;
            Step(c) == Again(c.(state := ChunkTrailer, body := c.body + c.buffer[..left],
                                chunkReceive := c.chunkSize, buffer := c.buffer[left..]))
  {
  }

  lemma ContentShort(c: Conn)
    requires c.Valid() && c.state.ChunkContent? && |c.buffer| < c.chunkSize - c.chunkReceive
    ensures Step(c) == Wait(c.(body := c.body + c.buffer, chunkReceive := c.chunkReceive + |c.buffer|, buffer := []))
  {
    assert c.buffer[..|c.buffer|] == c.buffer && c.buffer[|c.buffer|..] == [];
  }

  lemma StepKeepsChunking(c: Conn)
    requires c.Valid() && Chunking(c.state)
    ensures Chunking(Step(c).c.state)
  {
  }

  lemma {:induction false} PumpMore(c: Conn, more: seq<byte>)
    requires c.Valid() && Chunking(c.state)
    ensures Chunking(Pump(c).c.state)
    ensures match Pump(c)
            case Over(d) => Pump(c.More(more)) == Over(d.More(more))
            case Wait(d) => Pump(c.More(more)) == Pump(d.More(more))
            case Again(_) => false
    decreases |c.buffer|, c.state == ChunkContent
  {
    hide Step;
    StepMore(c, more);
    StepKeepsChunking(c);
    if Step(c).Again? {
      PumpMore(Step(c).c, more);
    }
  }

  /** Two outcomes that differ at most in bytes left unread behind the end of the message. */
  predicate SameOutcome(p: Pass, q: Pass)
  {
    match (p, q)
    case (Wait(c), Wait(d)) => c == d
    case (Over(c), Over(d)) => c.(buffer := []) == d.(buffer := []) && c.buffer <= d.buffer
    case _ => false
  }

  /** However the bytes are cut into reads, the machine ends in the same state with the same body. */
  lemma {:induction false} CutsDoNotMatter(c: Conn, segments: seq<seq<byte>>)
    requires c.Valid() && Chunking(c.state) && segments != []
    ensures SameOutcome(Feed(c, segments), Pump(c.More(Joined(segments))))
    decreases |segments|
  {
    hide Step, Pump;
    var first, rest := segments[0], Joined(segments[1..]);
    assert c.More(first).More(rest) == c.More(first + rest) by {
      assert c.buffer + first + rest == c.buffer + (first + rest);
    }
    PumpMore(c.More(first), rest);
    var p := Pump(c.More(first));
    if p.Wait? {
      if |segments| == 1 {
        PumpMore(c.More(first), []);
        assert first + rest == first;
      } else {
        CutsDoNotMatter(p.c, segments[1..]);
      }
    }
  }

  // ----- Whole messages -----

  datatype Chunk = Chunk(line: seq<byte>, data: seq<byte>)

  predicate OneLine(line: seq<byte>)
  {
    FindCrlf(line + CRLF) == |line|
  }

  predicate GoodChunk(k: Chunk)
  {
    k.data != [] && OneLine(k.line) && StoiHex(k.line) == Value(|k.data|)
  }

  function Coded(chunks: seq<Chunk>, last: seq<byte>): seq<byte>
  {
    if chunks == [] then last + CRLF + CRLF
    else chunks[0].line + CRLF + chunks[0].data + CRLF + Coded(chunks[1..], last)
  }

  function Body(chunks: seq<Chunk>): seq<byte>
  {
    if chunks == [] then [] else chunks[0].data + Body(chunks[1..])
  }

  /** From the start of a size line to what it announces. */
  lemma PumpLine(c: Conn, line: seq<byte>, rest: seq<byte>)
    requires c.Valid() && c.state.ChunkLen? && OneLine(line) && c.buffer == line + CRLF + rest
    ensures match StoiHex(line)
            case Invalid => Pump(c) == Over(c.(chunkReceive := 0, buffer := rest, keepalive := false))
            case Value(v) =>
              var d := c.(chunkReceive := 0, buffer := rest);
              Pump(c) == Pump(if v == 0 then d.(state := ChunkLast, chunkSize := 2)
                              else d.(state := ChunkContent, chunkSize := v % TWO_64))
  {
    hide StoiHex;
    FindCrlfStable(line + CRLF, rest);
    assert c.buffer[..|line|] == line && c.buffer[|line| + 2..] == rest;
  }

  lemma PumpData(c: Conn, data: seq<byte>, rest: seq<byte>)
    requires c.Valid() && c.state.ChunkContent? && c.chunkReceive == 0 && c.chunkSize == |data|
    requires c.buffer == data + CRLF + rest
    ensures Pump(c) == Pump(c.(state := ChunkLen, body := c.body + data, chunkReceive := |data|, buffer := rest))
  {
    var d := c.(state := ChunkTrailer, body := c.body + data, chunkReceive := |data|, buffer := CRLF + rest);
    assert c.buffer[..|data|] == data && c.buffer[|data|..] == CRLF + rest;
    assert Step(c) == Again(d);
    assert d.buffer[2..] == rest;
  }

  lemma {:induction false} PumpChunks(c: Conn, chunks: seq<Chunk>, last: seq<byte>, rest: seq<byte>)
    requires c.Valid() && c.state.ChunkLen? && c.buffer == Coded(chunks, last) + rest
    requires forall k :: k in chunks ==> GoodChunk(k)
    requires OneLine(last) && StoiHex(last) == Value(0)
    ensures Pump(c).Over? && Pump(c).c.state == Done && Pump(c).c.body == c.body + Body(chunks)
    ensures Pump(c).c.buffer == CRLF + rest && Pump(c).c.keepalive == c.keepalive
    decreases |chunks|
  {
    hide StoiHex, Pump, Step, OneLine;
    CodedFront(chunks, last, rest);
    if chunks == [] {
      PumpLast(c, last, rest);
      assert c.body + [] == c.body;
    } else {
      var k, after := chunks[0], Coded(chunks[1..], last) + rest;
      assert GoodChunk(k);
      PumpChunk(c, k, after);
      PumpChunks(c.(body := c.body + k.data, chunkReceive := |k.data|, chunkSize := |k.data|, buffer := after),
                 chunks[1..], last, rest);
      Associative(c.body, k.data, Body(chunks[1..]));
    }
  }

  lemma CodedFront(chunks: seq<Chunk>, last: seq<byte>, rest: seq<byte>)
    ensures chunks == [] ==> Coded(chunks, last) + rest == last + CRLF + (CRLF + rest)
    ensures chunks != [] ==> Coded(chunks, last) + rest
                             == chunks[0].line + CRLF + (chunks[0].data + CRLF + (Coded(chunks[1..], last) + rest))
  {
    if chunks == [] {
      Associative(last + CRLF, CRLF, rest);
    } else {
      var k, after := chunks[0], Coded(chunks[1..], last);
      Associative(k.line + CRLF, k.data, CRLF);
      Associative(k.line + CRLF, k.data + CRLF, after);
      Associative(k.line + CRLF, k.data + CRLF + after, rest);
      Associative(k.data + CRLF, after, rest);
    }
  }

  lemma PumpLast(c: Conn, last: seq<byte>, rest: seq<byte>)
    requires c.Valid() && c.state.ChunkLen? && c.buffer == last + CRLF + (CRLF + rest)
    requires OneLine(last) && StoiHex(last) == Value(0)
    ensures Pump(c) == Over(c.(state := Done, chunkReceive := 0, chunkSize := 2, buffer := CRLF + rest))
  {
    hide StoiHex;
    PumpLine(c, last, CRLF + rest);
  }

  lemma PumpChunk(c: Conn, k: Chunk, after: seq<byte>)
    requires c.Valid() && c.state.ChunkLen? && GoodChunk(k)
    requires c.buffer == k.line + CRLF + (k.data + CRLF + after)
    ensures Pump(c)
         == Pump(c.(body := c.body + k.data, chunkReceive := |k.data|, chunkSize := |k.data|, buffer := after))
  {
    hide Pump, Step;
    PumpLine(c, k.line, k.data + CRLF + after);
    HexSizeBound(k);
    PumpData(c.(state := ChunkContent, chunkReceive := 0, chunkSize := |k.data|, buffer := k.data + CRLF + after),
             k.data, after);
  }

  lemma HexSizeBound(k: Chunk)
    requires GoodChunk(k)
    ensures |k.data| % TWO_64 == |k.data|
  {
  }

  /** Every segmentation of a chunked message ends done, with the concatenated chunks as the body. */
  lemma ChunkedMessage(c: Conn, chunks: seq<Chunk>, last: seq<byte>, rest: seq<byte>, segments: seq<seq<byte>>)
    requires c.Valid() && c.state.ChunkLen? && c.buffer == [] && c.body == []
    requires forall k :: k in chunks ==> GoodChunk(k)
    requires OneLine(last) && StoiHex(last) == Value(0)
    requires segments != [] && Joined(segments) == Coded(chunks, last) + rest
    ensures var p := Feed(c, segments);
            p.Over? && p.c.state == Done && p.c.body == Body(chunks) && p.c.keepalive == c.keepalive
  {
    hide Pump, Step;
    CutsDoNotMatter(c, segments);
    assert [] + Joined(segments) == Joined(segments);
    PumpChunks(c.More(Joined(segments)), chunks, last, rest);
    assert [] + Body(chunks) == Body(chunks);
  }

  /** A chunk as section 7.1 writes it: its size in digits of either case, maybe an extension, and its data. */
  datatype Coding = Coding(digits: seq<byte>, extension: seq<byte>, data: seq<byte>)

  predicate WellCoded(k: Coding)
  {
    && 0 < |k.data| <= 2147483647 && Writes(k.digits, |k.data|)
    && IsExtension(k.extension) && 13 !in k.extension
  }

  function LineOf(k: Coding): Chunk
  {
    Chunk(k.digits + k.extension, k.data)
  }

  function Lines(chunks: seq<Coding>): seq<Chunk>
  {
    if chunks == [] then [] else [LineOf(chunks[0])] + Lines(chunks[1..])
  }

  /** The message: every chunk with its line breaks, a last chunk of size zero, and no trailer. */
  function Message(chunks: seq<Coding>, last: Coding): seq<byte>
  {
    if chunks == [] then last.digits + last.extension + [13, 10, 13, 10]
    else chunks[0].digits + chunks[0].extension + [13, 10] + chunks[0].data + [13, 10] + Message(chunks[1..], last)
  }

  function Data(chunks: seq<Coding>): seq<byte>
  {
    if chunks == [] then [] else chunks[0].data + Data(chunks[1..])
  }

  lemma {:induction false} OneLineOf(line: seq<byte>)
    requires 13 !in line
    ensures OneLine(line)
  {
    if line == [] {
      assert line + CRLF == CRLF;
    } else {
      assert (line + CRLF)[1..] == line[1..] + CRLF;
      OneLineOf(line[1..]);
    }
  }

  lemma LineReads(digits: seq<byte>, extension: seq<byte>, n: nat)
    requires Writes(digits, n) && n <= 2147483647 && IsExtension(extension) && 13 !in extension
    ensures OneLine(digits + extension) && StoiHex(digits + extension) == Value(n)
  {
    SizeLine(digits, n, extension);
    WritesIs(digits, n);
    assert forall i :: 0 <= i < |digits| ==> digits[i] != 13;
    OneLineOf(digits + extension);
    hide StoiHex, OneLine, Writes, IsExtension;
  }

  lemma {:induction false} LinesAreGood(chunks: seq<Coding>, last: Coding)
    requires forall k :: k in chunks ==> WellCoded(k)
    ensures forall k :: k in Lines(chunks) ==> GoodChunk(k)
    ensures Coded(Lines(chunks), last.digits + last.extension) == Message(chunks, last)
    ensures Body(Lines(chunks)) == Data(chunks)
    decreases |chunks|
  {
    hide StoiHex, OneLine, Writes, IsExtension;
    if chunks == [] {
      assert last.digits + last.extension + CRLF + CRLF == last.digits + last.extension + [13, 10, 13, 10];
    } else {
      var k := chunks[0];
      assert k in chunks;
      LineReads(k.digits, k.extension, |k.data|);
      LinesAreGood(chunks[1..], last);
      assert Lines(chunks)[0] == LineOf(k) && Lines(chunks)[1..] == Lines(chunks[1..]);
    }
  }

  /** Whatever the sizes' case, zeros in front and extensions, and however it is cut: the message arrives, and ends there. */
  lemma RfcMessage(c: Conn, chunks: seq<Coding>, last: Coding, rest: seq<byte>, segments: seq<seq<byte>>)
    requires c.Valid() && c.state.ChunkLen? && c.buffer == [] && c.body == []
    requires forall k :: k in chunks ==> WellCoded(k)
    requires Writes(last.digits, 0) && IsExtension(last.extension) && 13 !in last.extension
    requires segments != [] && Joined(segments) == Message(chunks, last) + rest
    ensures var p := Feed(c, segments);
            p.Over? && p.c.state == Done && p.c.body == Data(chunks) && p.c.keepalive == c.keepalive
  {
    hide StoiHex, OneLine, GoodChunk, WellCoded, Writes, Feed, Coded, Message, IsExtension;
    LinesAreGood(chunks, last);
    LineReads(last.digits, last.extension, 0);
    ChunkedMessage(c, Lines(chunks), last.digits + last.extension, rest, segments);
  }

  /** The plainest coding: sizes in bare hexadecimal. */
  function PlainChunk(data: seq<byte>): Chunk
  {
    Chunk(HexText(|data|), data)
  }

  lemma PlainChunkIsGood(data: seq<byte>)
    requires 0 < |data| <= INT_MAX
    ensures GoodChunk(PlainChunk(data))
  {
    var digits := HexText(|data|);
    HexTextWrites(|data|);
    SizeLine(digits, |data|, []);
    assert digits + [] == digits;
    NoCrlfInHex(digits);
  }

  lemma {:induction false} NoCrlfInHex(digits: seq<byte>)
    requires forall i :: 0 <= i < |digits| ==> IsHex(digits[i])
    ensures OneLine(digits)
  {
    if digits == [] {
      assert digits + CRLF == CRLF;
    } else {
      assert (digits + CRLF)[1..] == digits[1..] + CRLF;
      NoCrlfInHex(digits[1..]);
    }
  }

  /** A chunk of 2 GiB or more ends the connection instead. */
  lemma HugeChunkIsRefused(c: Conn, size: nat, rest: seq<byte>)
    requires c.Valid() && c.state.ChunkLen? && size > INT_MAX && c.buffer == HexText(size) + CRLF + rest
    ensures Pump(c).Over? && Pump(c).c.state == ChunkLen && !Pump(c).c.keepalive && Pump(c).c.body == c.body
  {
    var digits := HexText(size);
    HexTextWrites(size);
    SizeLine(digits, size, []);
    assert digits + [] == digits;
    NoCrlfInHex(digits);
    PumpLine(c, digits, rest);
  }

  /** After the last chunk only an immediate line break ends the message: trailer fields leave the client waiting. */
  lemma LastChunkEnds(c: Conn, segments: seq<seq<byte>>)
    requires c.Valid() && c.state.ChunkLast? && c.buffer == [] && segments != []
    ensures Feed(c, segments).c.state == Done <==> StartsCrlf(Joined(segments))
    ensures Feed(c, segments).c.body == c.body
  {
    CutsDoNotMatter(c, segments);
    assert [] + Joined(segments) == Joined(segments);
  }

  // ----- Content of a known length -----

  /** How many of the reads are taken before their total reaches the announced length. */
  function Taken(need: int, segments: seq<seq<byte>>): (k: nat)
    ensures k <= |segments|
    decreases |segments|
  {
    if segments == [] then 0
    else if |segments[0]| >= need then 1
    else 1 + Taken(need - |segments[0]|, segments[1..])
  }

  /** Whole reads are taken until the length is reached, so the body can run past it. */
  lemma {:induction false} ContentTakesWholeReads(c: Conn, segments: seq<seq<byte>>)
    requires c.Valid() && c.state.Content? && c.buffer == [] && |c.body| < c.contentLength
    ensures var p := Feed(c, segments);
            && p.c.body == c.body + Joined(segments[..Taken(c.contentLength - |c.body|, segments)])
            && (p.c.state == Done <==> |c.body| + |Joined(segments)| >= c.contentLength)
    decreases |segments|
  {
    if segments == [] {
      assert c.body + [] == c.body;
    } else {
      var s, rest := segments[0], segments[1..];
      var need := c.contentLength - |c.body|;
      ContentRead(c, s);
      hide Pump, Joined;
      var k := Taken(need, segments);
      JoinedFirst(segments, k);
      NothingJoined(segments, s);
      if |s| < need {
        ContentTakesWholeReads(c.(body := c.body + s), rest);
        Associative(c.body, s, Joined(rest[..k - 1]));
      } else {
        assert s + Joined([]) == s && rest[..0] == [];
      }
    }
  }

  lemma NothingJoined(segments: seq<seq<byte>>, s: seq<byte>)
    requires segments != [] && s == segments[0]
    ensures Joined([]) == [] && Joined(segments) == s + Joined(segments[1..])
  {
  }

  lemma ContentRead(c: Conn, s: seq<byte>)
    requires c.Valid() && c.state.Content? && c.buffer == []
    ensures var d := c.(body := c.body + s);
            Pump(c.More(s)) == if |d.body| >= c.contentLength then Over(d.(state := Done)) else Wait(d)
  {
    assert [] + s == s && c.More(s).buffer == s;
  }

  lemma JoinedFirst(segments: seq<seq<byte>>, k: nat)
    requires 0 < k <= |segments|
    ensures Joined(segments[..k]) == segments[0] + Joined(segments[1..][..k - 1])
  {
    assert segments[..k][1..] == segments[1..][..k - 1] && segments[..k][0] == segments[0];
  }

  /** A body of exactly the announced length arrives whole, however it is cut. */
  lemma ContentOfExactLength(c: Conn, segments: seq<seq<byte>>)
    requires c.Valid() && c.state.Content? && c.buffer == [] && c.body == [] && 0 < c.contentLength
    requires |Joined(segments)| == c.contentLength
    ensures Feed(c, segments).c.state == Done && Feed(c, segments).c.body == Joined(segments)
  {
    ContentTakesWholeReads(c, segments);
    TakenAll(c.contentLength, segments);
    assert [] + Joined(segments) == Joined(segments);
  }

  lemma {:induction false} TakenAll(need: int, segments: seq<seq<byte>>)
    requires need == |Joined(segments)|
    ensures Joined(segments[..Taken(need, segments)]) == Joined(segments)
    decreases |segments|
  {
    if segments != [] {
      var s, rest, k := segments[0], segments[1..], Taken(need, segments);
      if |s| >= need {
        assert |Joined(rest)| == 0;
        assert segments[..1][1..] == [] && segments[..1][0] == s;
      } else {
        TakenAll(need - |s|, rest);
        assert segments[..k][1..] == rest[..k - 1] && segments[..k][0] == s;
      }
    } else {
      assert segments[..0] == segments;
    }
  }

  /** With bytes to spare, the body is exactly the announced content just when a read ends there. */
  lemma ContentOverrun(c: Conn, segments: seq<seq<byte>>)
    requires c.Valid() && c.state.Content? && c.buffer == [] && c.body == [] && 0 < c.contentLength
    requires |Joined(segments)| > c.contentLength
    ensures Feed(c, segments).c.body == Joined(segments)[..c.contentLength]
        <==> exists k :: 0 <= k <= |segments| && |Joined(segments[..k])| == c.contentLength
  {
    var n, t := c.contentLength, Taken(c.contentLength, segments);
    ContentTakesWholeReads(c, segments);
    assert [] + Joined(segments[..t]) == Joined(segments[..t]);
    JoinedPrefix(segments, t);
    if k: nat :| k <= |segments| && |Joined(segments[..k])| == n {
      TakenReaches(n, segments, k);
      JoinedPrefix(segments, k);
    }
  }

  lemma {:induction false} JoinedPrefix(segments: seq<seq<byte>>, k: nat)
    requires k <= |segments|
    ensures Joined(segments[..k]) <= Joined(segments)
    decreases |segments|
  {
    if k > 0 {
      assert segments[..k][1..] == segments[1..][..k - 1];
      JoinedPrefix(segments[1..], k - 1);
    }
  }

  lemma {:induction false} TakenReaches(need: int, segments: seq<seq<byte>>, k: nat)
    requires k <= |segments| && |Joined(segments[..k])| == need && need > 0
    ensures |Joined(segments[..Taken(need, segments)])| == need
    decreases |segments|
  {
    var s, rest := segments[0], segments[1..];
    assert segments[..k][1..] == rest[..k - 1] && segments[..k][0] == s;
    if |s| >= need {
      assert segments[..1][1..] == [];
    } else {
      TakenReaches(need - |s|, rest, k - 1);
      var t := Taken(need, segments);
      assert segments[..t][1..] == rest[..t - 1];
    }
  }
}
