/**
 The WebSocket framing (RFC 6455, section 5.2) as the client segments it: what one buffer holds, and why it does not matter
 how the network cut the bytes up.
 */
module WebSocketFrames {
  import opened Bytes

  const OP_CONTINUATION := 0
  const OP_TEXT := 1
  const OP_BINARY := 2
  const OP_CLOSE := 8
  const OP_PING := 9
  const OP_PONG := 10

  const LENGTH_LARGE := 126
  const LENGTH_HUGE := 127

  /** What the client hands on: a payload to the deriving class, or a ping or pong to the echo handler. */
  datatype Event = Data(payload: seq<byte>) | Ping(payload: seq<byte>) | Pong(payload: seq<byte>)

  /** What stands at the front of the buffer. */
  datatype Head =
    | Wait                             // not a whole frame yet
    | Whole(event: Event, size: nat)   // a frame of this many bytes
    | Masked                           // skipped without being removed, so the client never gets past it
    | Failed(code: nat)                // a close or an unknown frame: the error callback, and nothing is removed
    | Overlong                         // a length field near 2^64, where the size computation wraps around

  predicate Carries(op: int)
  {
    op in {OP_CONTINUATION, OP_TEXT, OP_BINARY, OP_PING, OP_PONG}
  }

  function EventOf(op: int, payload: seq<byte>): Event
  {
    if op == OP_PING then Ping(payload) else if op == OP_PONG then Pong(payload) else Data(payload)
  }

  /** A frame whose header takes `start` bytes and declares `len` bytes of payload. */
  function Sized(data: seq<byte>, op: int, start: nat, len: nat): Head
  {
    if start + len >= TWO_64 then Overlong
    else if |data| < start + len then Wait
    else Whole(EventOf(op, data[start..start + len]), start + len)
  }

  function HeadOf(data: seq<byte>): (head: Head)
    ensures head.Whole? ==> 2 <= head.size <= |data|
  {
    if |data| < 4 then Wait
    else
      var op := data[0] % 128;
      if Carries(op) then
        if data[1] >= 128 then Masked
        else if data[1] == LENGTH_LARGE then
          if |data| < 8 then Wait else Sized(data, op, 4, FromBigEndian(data[2..4]))
        else if data[1] == LENGTH_HUGE then
          if |data| < 10 then Wait else Sized(data, op, 10, FromBigEndian(data[2..10]))
        else Sized(data, op, 2, data[1])
      else if op == OP_CLOSE then Failed(FromBigEndian(data[2..4]))
      else Failed(0)
  }

  /** Why the client stopped looking at its buffer. */
  datatype Stop = Idle | Spinning | Failing(code: nat) | Undefined

  datatype Drained = Drained(events: seq<Event>, residue: seq<byte>, stop: Stop)

  function Prepend(events: seq<Event>, d: Drained): Drained
  {
    d.(events := events + d.events)
  }

  /** One call of the handler on a buffer. */
  function Drain(data: seq<byte>): Drained
    decreases |data|
  {
    match HeadOf(data)
    case Whole(event, size) => Prepend([event], Drain(data[size..]))
    case Wait => Drained([], data, Idle)
    case Masked => Drained([], data, Spinning)
    case Failed(code) => Drained([], data, Failing(code))
    case Overlong => Drained([], data, Undefined)
  }

  lemma DrainOnce(data: seq<byte>)
    ensures var head := HeadOf(data);
            && (head.Whole? ==> Drain(data) == Prepend([head.event], Drain(data[head.size..])))
            && (head.Wait? ==> Drain(data) == Drained([], data, Idle))
            && (head.Masked? ==> Drain(data) == Drained([], data, Spinning))
            && (head.Failed? ==> Drain(data) == Drained([], data, Failing(head.code)))
            && (head.Overlong? ==> Drain(data) == Drained([], data, Undefined))
  {
  }

  /** The handler called after each read, on what was left over plus what arrived; a handler that never returns gets no more. */
  function Feed(buffer: seq<byte>, segments: seq<seq<byte>>): Drained
    requires segments != []
    decreases |segments|
  {
    var d := Drain(buffer + segments[0]);
    if |segments| == 1 || d.stop.Spinning? || d.stop.Undefined? then d
    else Prepend(d.events, Feed(d.residue, segments[1..]))
  }

  function Joined(segments: seq<seq<byte>>): seq<byte>
  {
    if segments == [] then [] else segments[0] + Joined(segments[1..])
  }

  // ----- Cuts do not matter -----

  lemma Kept(data: seq<byte>, more: seq<byte>, from: nat, to: nat)
    requires from <= to <= |data|
    ensures (data + more)[from..to] == data[from..to]
  {
  }

  lemma SizedStable(data: seq<byte>, more: seq<byte>, op: int, start: nat, len: nat)
    requires start <= |data|
    ensures !Sized(data, op, start, len).Wait? ==> Sized(data + more, op, start, len) == Sized(data, op, start, len)
  {
    if start + len <= |data| {
      Kept(data, more, start, start + len);
    }
  }

  lemma HeadStable(data: seq<byte>, more: seq<byte>)
    ensures !HeadOf(data).Wait? ==> HeadOf(data + more) == HeadOf(data)
  {
    hide Sized;
    if |data| >= 4 {
      assert (data + more)[0] == data[0] && (data + more)[1] == data[1];
      Kept(data, more, 2, 4);
      SizedStable(data, more, data[0] % 128, 2, data[1]);
      SizedStable(data, more, data[0] % 128, 4, FromBigEndian(data[2..4]));
      if |data| >= 10 {
        Kept(data, more, 2, 10);
        SizedStable(data, more, data[0] % 128, 10, FromBigEndian(data[2..10]));
      }
    }
  }

  lemma PrependTwice(a: seq<Event>, b: seq<Event>, d: Drained)
    ensures Prepend(a, Prepend(b, d)) == Prepend(a + b, d) && Prepend([], d) == d
  {
    assert a + (b + d.events) == a + b + d.events;
    assert [] + d.events == d.events;
  }

  /** More bytes continue from where the handler stopped. */
  lemma {:induction false} DrainMore(data: seq<byte>, more: seq<byte>)
    ensures Drain(data + more) == Prepend(Drain(data).events, Drain(Drain(data).residue + more))
    decreases |data|
  {
    hide HeadOf;
    HeadStable(data, more);
    var head := HeadOf(data);
    if head.Whole? {
      var tail := data[head.size..];
      var rest := Drain(tail);
      assert (data + more)[head.size..] == tail + more;
      DrainMore(tail, more);
      PrependTwice([head.event], rest.events, Drain(rest.residue + more));
    } else {
      PrependTwice([], [], Drain(data + more));
    }
  }

  /** A client that has stopped for good only piles up what arrives. */
  lemma {:induction false} DrainStopped(data: seq<byte>, more: seq<byte>)
    ensures !Drain(data).stop.Idle? ==>
              Drain(data + more) == Drained(Drain(data).events, Drain(data).residue + more, Drain(data).stop)
    decreases |data|
  {
    hide HeadOf;
    HeadStable(data, more);
    var head := HeadOf(data);
    if head.Whole? {
      assert (data + more)[head.size..] == data[head.size..] + more;
      DrainStopped(data[head.size..], more);
    }
  }

  /**
   However the bytes are cut into reads, the same frames are delivered in the same order and the client stops for the
   same reason; unless it hangs on a frame, it also keeps the same residue.
   */
  lemma {:induction false} CutsDoNotMatter(buffer: seq<byte>, segments: seq<seq<byte>>)
    requires segments != [] && Drain(buffer).events == [] && Drain(buffer).residue == buffer
    ensures var fed, once := Feed(buffer, segments), Drain(buffer + Joined(segments));
            && fed.events == once.events && fed.stop == once.stop
            && fed.residue <= once.residue
            && (fed.stop.Idle? || fed.stop.Failing? ==> fed.residue == once.residue)
    decreases |segments|
  {
    hide HeadOf, Drain;
    var first, rest := segments[0], Joined(segments[1..]);
    var d := Drain(buffer + first);
    assert buffer + Joined(segments) == buffer + first + rest;
    DrainMore(buffer + first, rest);
    DrainStopped(buffer + first, rest);
    if |segments| == 1 {
      assert buffer + first + rest == buffer + first;
    } else if !d.stop.Spinning? && !d.stop.Undefined? {
      ResidueIsStuck(buffer + first);
      CutsDoNotMatter(d.residue, segments[1..]);
    }
  }

  /** What the handler leaves holds no further frame. */
  lemma {:induction false} ResidueIsStuck(data: seq<byte>)
    ensures Drain(Drain(data).residue) == Drained([], Drain(data).residue, Drain(data).stop)
    decreases |data|
  {
    hide HeadOf;
    if HeadOf(data).Whole? {
      ResidueIsStuck(data[HeadOf(data).size..]);
    }
  }

  // ----- Well-formed frames -----

  datatype Frame = Frame(fin: bool, op: int, payload: seq<byte>)

  predicate Unfragmented(f: Frame)
  {
    Carries(f.op) && |f.payload| < 0x8000_0000_0000_0000
  }

  /** The shortest length field for n. */
  function LengthBytes(n: nat): seq<byte>
  {
    if n <= 125 then [n] else if n <= 65535 then [LENGTH_LARGE] + BigEndian(n, 2) else [LENGTH_HUGE] + BigEndian(n, 8)
  }

  /** A server's frame: not masked, and minimally length-encoded. */
  function FrameBytes(f: Frame): (s: seq<byte>)
    requires Unfragmented(f)
    ensures |s| >= 2
  {
    [f.op + if f.fin then 128 else 0] + LengthBytes(|f.payload|) + f.payload
  }

  function FramesBytes(frames: seq<Frame>): seq<byte>
    requires forall f :: f in frames ==> Unfragmented(f)
  {
    if frames == [] then [] else FrameBytes(frames[0]) + FramesBytes(frames[1..])
  }

  /** What section 5.2 says a frame is: 9 a ping, 10 a pong, and the others that carry a payload data. */
  function Meaning(op: int, payload: seq<byte>): Event
  {
    if op == 9 then Ping(payload) else if op == 10 then Pong(payload) else Data(payload)
  }

  function Events(frames: seq<Frame>): (r: seq<Event>)
    ensures |r| == |frames|
  {
    if frames == [] then [] else [Meaning(frames[0].op, frames[0].payload)] + Events(frames[1..])
  }

  function HeaderSize(n: nat): nat
  {
    if n <= 125 then 2 else if n <= 65535 then 4 else 10
  }

  /** The first bytes of a frame, seen in data that starts like it. */
  lemma FrontBytes(data: seq<byte>, f: Frame)
    requires Unfragmented(f) && |data| >= 4
    requires data <= FrameBytes(f) || FrameBytes(f) <= data
    ensures |FrameBytes(f)| == HeaderSize(|f.payload|) + |f.payload|
    ensures data[0] % 128 == f.op
    ensures |f.payload| <= 125 ==> data[1] == |f.payload|
    ensures 125 < |f.payload| <= 65535 ==> data[1] == LENGTH_LARGE && data[2..4] == BigEndian(|f.payload|, 2)
    ensures |f.payload| > 65535 ==> data[1] == LENGTH_HUGE
    ensures |f.payload| > 65535 && |data| >= 10 ==> data[2..10] == BigEndian(|f.payload|, 8)
  {
    var n, s := |f.payload|, FrameBytes(f);
    var first: byte := f.op + if f.fin then 128 else 0;
    var front := [first] + LengthBytes(n);
    assert s == front + f.payload;
    assert s[0] == front[0] && s[1] == front[1] == LengthBytes(n)[0];
    assert data[0] == s[0] && data[1] == s[1];
    if 125 < n <= 65535 {
      assert front == [first, LENGTH_LARGE] + BigEndian(n, 2);
      assert data[2..4] == s[2..4] == front[2..4];
    } else if n > 65535 && |data| >= 10 {
      assert front == [first, LENGTH_HUGE] + BigEndian(n, 8);
      assert data[2..10] == s[2..10] == front[2..10];
    }
  }

  lemma PayloadAt(data: seq<byte>, f: Frame)
    requires Unfragmented(f) && FrameBytes(f) <= data
    ensures var h, n := HeaderSize(|f.payload|), |f.payload|; h + n <= |data| && data[h..h + n] == f.payload
  {
    var h, s := HeaderSize(|f.payload|), FrameBytes(f);
    assert s[h..] == f.payload;
    assert data[..|s|] == s;
    assert data[h..|s|] == data[..|s|][h..];
  }

  /** Any data that starts like a frame, as far as it goes. */
  lemma FrameFront(data: seq<byte>, f: Frame)
    requires Unfragmented(f) && |data| >= 4
    requires data <= FrameBytes(f) || FrameBytes(f) <= data
    ensures HeadOf(data) == if FrameBytes(f) <= data then Whole(Meaning(f.op, f.payload), |FrameBytes(f)|) else Wait
  {
    var n := |f.payload|;
    FrontBytes(data, f);
    FrontRead(data, n);
    HeadBySize(data, f.op, n);
    MeaningIs(f.op, f.payload);
    if FrameBytes(f) <= data { PayloadAt(data, f); }
    hide FrameBytes, HeadOf, FromBigEndian, BigEndian, Meaning, EventOf;
  }

  lemma FrontRead(data: seq<byte>, n: nat)
    requires |data| >= 4 && n < 0x8000_0000_0000_0000
    requires 125 < n <= 65535 ==> data[2..4] == BigEndian(n, 2)
    requires n > 65535 && |data| >= 10 ==> data[2..10] == BigEndian(n, 8)
    ensures 125 < n <= 65535 ==> FromBigEndian(data[2..4]) == n
    ensures n > 65535 && |data| >= 10 ==> FromBigEndian(data[2..10]) == n
  {
    PowValues();
    if 125 < n <= 65535 {
      BigEndianRoundTrip(n, 2);
    } else if n > 65535 {
      BigEndianRoundTrip(n, 8);
    }
    hide FromBigEndian, BigEndian;
  }

  lemma HeadBySize(data: seq<byte>, op: byte, n: nat)
    requires |data| >= 4 && Carries(op) && data[0] % 128 == op && n < 0x8000_0000_0000_0000
    requires n <= 125 ==> data[1] == n
    requires 125 < n <= 65535 ==> data[1] == LENGTH_LARGE && FromBigEndian(data[2..4]) == n
    requires n > 65535 ==> data[1] == LENGTH_HUGE && (|data| >= 10 ==> FromBigEndian(data[2..10]) == n)
    ensures var h := HeaderSize(n);
            HeadOf(data) == if h + n <= |data| then Whole(EventOf(op, data[h..h + n]), h + n) else Wait
  {
    hide FromBigEndian, EventOf;
  }

  lemma MeaningIs(op: byte, payload: seq<byte>)
    requires Carries(op)
    ensures EventOf(op, payload) == Meaning(op, payload)
  {
  }

  /** The length a front declares, and how many bytes come before the payload. */
  function Declared(data: seq<byte>): (nat, nat)
    requires |data| >= 4 && (data[1] == 127 ==> |data| >= 10)
  {
    if data[1] == 126 then (256 * (data[2] as int) + data[3], 4)
    else if data[1] == 127 then (FromBigEndian(data[2..10]), 10)
    else (data[1], 2)
  }

  lemma LargeIs(data: seq<byte>)
    requires |data| >= 4
    ensures FromBigEndian(data[2..4]) == 256 * (data[2] as int) + data[3]
  {
    assert data[2..4][..1] == data[2..3] && data[2..3][..0] == [];
    assert FromBigEndian(data[2..3]) == data[2];
  }

  /** The front of any buffer, in the numbers of section 5.2: what it delivers, and why the client stops at it. */
  lemma Opcodes(data: seq<byte>)
    requires |data| < TWO_64
    ensures |data| < 4 ==> Drain(data) == Drained([], data, Idle)
    ensures |data| >= 4 && data[0] % 128 == 8 ==>
              Drain(data) == Drained([], data, Failing(256 * (data[2] as int) + data[3]))
    ensures |data| >= 4 && data[0] % 128 !in {0, 1, 2, 8, 9, 10} ==> Drain(data) == Drained([], data, Failing(0))
    ensures |data| >= 4 && data[0] % 128 in {0, 1, 2, 9, 10} ==>
              if data[1] >= 128 then Drain(data) == Drained([], data, Spinning)
              else if |data| < (if data[1] == 126 then 8 else if data[1] == 127 then 10 else 2) then
                Drain(data) == Drained([], data, Idle)
              else
                var (length, start) := Declared(data);
                if start + length > |data| then
                  Drain(data) == Drained([], data, if start + length < TWO_64 then Idle else Undefined)
                else
                  Drain(data) == Prepend([Meaning(data[0] % 128, data[start..start + length])], Drain(data[start + length..]))
  {
    hide HeadOf, Drain, Declared, Meaning, FromBigEndian;
    HeadIs(data);
    DrainOnce(data);
  }

  lemma HeadIs(data: seq<byte>)
    requires |data| < TWO_64
    ensures |data| < 4 ==> HeadOf(data) == Wait
    ensures |data| >= 4 && data[0] % 128 == 8 ==> HeadOf(data) == Failed(256 * (data[2] as int) + data[3])
    ensures |data| >= 4 && data[0] % 128 !in {0, 1, 2, 8, 9, 10} ==> HeadOf(data) == Failed(0)
    ensures |data| >= 4 && data[0] % 128 in {0, 1, 2, 9, 10} ==>
              HeadOf(data) ==
              if data[1] >= 128 then Masked
              else if |data| < (if data[1] == 126 then 8 else if data[1] == 127 then 10 else 2) then Wait
              else
                var (length, start) := Declared(data);
                if start + length >= TWO_64 then Overlong
                else if start + length > |data| then Wait
                else Whole(Meaning(data[0] % 128, data[start..start + length]), start + length)
  {
    if |data| >= 4 { LargeIs(data); }
    hide FromBigEndian;
  }

  /** How many of the frames get out when the stream ends `partial` bytes into the next one. */
  function Delivered(frames: seq<Frame>, partial: nat): nat
    requires forall f :: f in frames ==> Unfragmented(f)
  {
    if frames != [] && |FrameBytes(frames[|frames| - 1])| + partial < 4 then |frames| - 1 else |frames|
  }

  lemma {:induction false} DrainFrames(frames: seq<Frame>, next: Frame, k: nat)
    requires forall f :: f in frames ==> Unfragmented(f)
    requires Unfragmented(next) && k < |FrameBytes(next)|
    ensures var n, partial := Delivered(frames, k), FrameBytes(next)[..k];
            Drain(FramesBytes(frames) + partial)
            == Drained(Events(frames[..n]), FramesBytes(frames[n..]) + partial, Idle)
    decreases |frames|
  {
    hide FrameBytes, HeadOf;
    var partial, n := FrameBytes(next)[..k], Delivered(frames, k);
    var data := FramesBytes(frames) + partial;
    if frames == [] {
      assert data == partial && frames[..0] == [] && frames[0..] == [];
      DrainPartial(next, k);
    } else {
      var f, rest := frames[0], frames[1..];
      var after := FramesBytes(rest) + partial;
      assert data == FrameBytes(f) + after;
      if |data| < 4 {
        assert |FramesBytes(rest)| < 2;
        assert rest == [] && n == 0 && frames[..0] == [] && frames[0..] == frames;
        DrainShort(data);
      } else {
        FrameFront(data, f);
        assert data[|FrameBytes(f)|..] == after;
        DrainFrames(rest, next, k);
        var m := Delivered(rest, k);
        assert n == m + 1 && frames[..n] == [f] + rest[..m] && frames[n..] == rest[m..];
        assert frames[..n][1..] == rest[..m];
      }
    }
  }

  lemma DrainShort(data: seq<byte>)
    requires |data| < 4
    ensures Drain(data) == Drained([], data, Idle)
  {
  }

  lemma DrainPartial(next: Frame, k: nat)
    requires Unfragmented(next) && k < |FrameBytes(next)|
    ensures Drain(FrameBytes(next)[..k]) == Drained([], FrameBytes(next)[..k], Idle)
  {
    if k >= 4 { FrameFront(FrameBytes(next)[..k], next); }
  }

  /**
   Every way of cutting a stream of whole frames and the beginning of one more delivers the payloads of the whole frames
   in order, except that a last frame that makes fewer than four bytes with what follows it stays in the buffer.
   */
  lemma FramesGetThrough(frames: seq<Frame>, next: Frame, k: nat, segments: seq<seq<byte>>)
    requires forall f :: f in frames ==> Unfragmented(f)
    requires Unfragmented(next) && k < |FrameBytes(next)|
    requires segments != [] && Joined(segments) == FramesBytes(frames) + FrameBytes(next)[..k]
    ensures var n := Delivered(frames, k);
            Feed([], segments)
            == Drained(Events(frames[..n]), FramesBytes(frames[n..]) + FrameBytes(next)[..k], Idle)
  {
    CutsDoNotMatter([], segments);
    assert [] + Joined(segments) == Joined(segments);
    DrainFrames(frames, next, k);
  }
}
