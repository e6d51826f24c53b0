/** The WebSocket client: its receive buffer, and the header it puts in front of what it sends. */
module WebSocketClient {
  import opened Bytes
  import opened WebSocketFrames

  function CodeOf(stop: Stop): seq<nat>
  {
    if stop.Failing? then [stop.code] else []
  }

  /** The codes passed to the error callback over a number of reads. */
  function FeedErrors(buffer: seq<byte>, segments: seq<seq<byte>>): seq<nat>
    requires segments != []
    decreases |segments|
  {
    var d := Drain(buffer + segments[0]);
    CodeOf(d.stop)
    + if |segments| == 1 || d.stop.Spinning? || d.stop.Undefined? then [] else FeedErrors(d.residue, segments[1..])
  }

  /** Behind a frame that failed every further read fails the same way. */
  lemma {:induction false} StillFailing(buffer: seq<byte>, segments: seq<seq<byte>>, code: nat)
    requires segments != [] && HeadOf(buffer) == Failed(code)
    ensures Feed(buffer, segments).stop == Failing(code)
    ensures |FeedErrors(buffer, segments)| == |segments| && forall c :: c in FeedErrors(buffer, segments) ==> c == code
    decreases |segments|
  {
    hide HeadOf, Drain;
    var data := buffer + segments[0];
    HeadStable(buffer, segments[0]);
    DrainOnce(data);
    if |segments| > 1 {
      StillFailing(data, segments[1..], code);
    }
  }

  /** However the reads are cut, there is one error at most, reported by every read from the one that completes its frame on. */
  lemma {:induction false} OneError(buffer: seq<byte>, segments: seq<seq<byte>>)
    requires segments != []
    ensures var stop, errors := Feed(buffer, segments).stop, FeedErrors(buffer, segments);
            && |errors| <= |segments| && (errors != [] <==> stop.Failing?)
            && forall c :: c in errors ==> stop == Failing(c)
    decreases |segments|
  {
    hide HeadOf, Drain, Feed, FeedErrors;
    var d, rest := Drain(buffer + segments[0]), segments[1..];
    FeedOnce(buffer, segments);
    if |segments| > 1 && !d.stop.Spinning? && !d.stop.Undefined? {
      ResidueHead(buffer + segments[0]);
      OneError(d.residue, rest);
      if d.stop.Failing? {
        StillFailing(d.residue, rest, d.stop.code);
      }
    }
  }

  lemma FeedOnce(buffer: seq<byte>, segments: seq<seq<byte>>)
    requires segments != []
    ensures var d := Drain(buffer + segments[0]);
            if |segments| == 1 || d.stop.Spinning? || d.stop.Undefined? then
              Feed(buffer, segments) == d && FeedErrors(buffer, segments) == CodeOf(d.stop)
            else
              Feed(buffer, segments) == Prepend(d.events, Feed(d.residue, segments[1..]))
              && FeedErrors(buffer, segments) == CodeOf(d.stop) + FeedErrors(d.residue, segments[1..])
  {
    hide Drain;
  }

  lemma {:induction false} ResidueHead(data: seq<byte>)
    ensures var d := Drain(data); d.stop.Failing? ==> HeadOf(d.residue) == Failed(d.stop.code)
    decreases |data|
  {
    DrainOnce(data);
    if HeadOf(data).Whole? {
      ResidueHead(data[HeadOf(data).size..]);
    }
  }

  class Client {
    var buffer: seq<byte>
    /** Everything handed on so far, oldest first. */
    var delivered: seq<Event>
    /** Codes passed to the error callback so far. */
    var errors: seq<nat>

    constructor ()
      ensures buffer == [] && delivered == [] && errors == []
    {
      buffer, delivered, errors := [], [], [];
    }

    /**
     Takes one frame off the front of the buffer; `again` when the caller should try again. With a length near 2^64 the
     program erases past the end of the buffer, which nothing defines; the model says so and stops there.
     */
    method ParseHeader() returns (again: bool, undefined: bool)
      modifies this
      ensures undefined <==> HeadOf(old(buffer)).Overlong?
      ensures match HeadOf(old(buffer))
              case Whole(event, size) =>
                again && buffer == old(buffer)[size..] && delivered == old(delivered) + [event] && errors == old(errors)
              case Masked =>
                again && buffer == old(buffer) && delivered == old(delivered) && errors == old(errors)
              case Failed(code) =>
                !again && buffer == old(buffer) && delivered == old(delivered) && errors == old(errors) + [code]
              case _ =>
                !again && buffer == old(buffer) && delivered == old(delivered) && errors == old(errors)
    {
      if |buffer| < 4 {
        return false, false;
      }
      var opcode := buffer[0] % 128;
      if opcode == OP_CONTINUATION || opcode == OP_TEXT || opcode == OP_BINARY || opcode == OP_PING || opcode == OP_PONG {
        var len1 := buffer[1];
        var payloadStart := 2;
        if len1 >= 128 {
          return true, false;
        }
        var len: nat := len1;
        if len1 == LENGTH_LARGE {
          if |buffer| < 8 {
            return false, false;
          }
          len := FromBigEndian(buffer[2..4]);
          payloadStart := payloadStart + 2;
        } else if len1 == LENGTH_HUGE {
          if |buffer| < 10 {
            return false, false;
          }
          len := 0;
          for v := 2 to 10
            invariant len == FromBigEndian(buffer[2..v])
          {
            assert buffer[2..v + 1][..v - 2] == buffer[2..v];
            len := len * 256 + buffer[v];
          }
          payloadStart := payloadStart + 8;
        }
        if payloadStart + len >= TWO_64 {
          return false, true;
        }
        if |buffer| < payloadStart + len {
          return false, false;
        }
        var payload := buffer[payloadStart..payloadStart + len];
        if opcode == OP_PING || opcode == OP_PONG {
          delivered := delivered + [if opcode == OP_PING then Ping(payload) else Pong(payload)];
        } else {
          delivered := delivered + [Data(payload)];
        }
        buffer := buffer[payloadStart + len..];
        return true, false;
      } else if opcode == OP_CLOSE {
        errors := errors + [FromBigEndian(buffer[2..4])];
        return false, false;
      } else {
        errors := errors + [0];
        return false, false;
      }
    }

    /**
     Frames are taken until none can be. The loop of the program never ends on a masked frame, and has no defined
     behaviour on a length near 2^64; the model returns there and says so.
     */
    method HandleBuffer() returns (stop: Stop)
      modifies this
      ensures var d := Drain(old(buffer));
              buffer == d.residue && delivered == old(delivered) + d.events && stop == d.stop
      ensures errors == old(errors) + CodeOf(stop)
    {
      hide HeadOf, Drain;
      var again := true;
      ghost var log: seq<Event> := [];
      PrependTwice([], [], Drain(buffer));
      while again
        invariant delivered == old(delivered) + log && Drain(old(buffer)) == Prepend(log, Drain(buffer))
        invariant again ==> errors == old(errors)
        invariant !again ==> HeadOf(buffer).Wait? || HeadOf(buffer).Failed?
        invariant !again ==> errors == old(errors) + if HeadOf(buffer).Failed? then [HeadOf(buffer).code] else []
        decreases again, |buffer|
      {
        DrainOnce(buffer);
        var size := |buffer|;
        ghost var head := HeadOf(buffer);
        var undefined;
        again, undefined := ParseHeader();
        if undefined {
          return Undefined;
        }
        if again && |buffer| == size {
          return Spinning;
        }
        if again {
          PrependTwice(log, [head.event], Drain(buffer));
          log := log + [head.event];
        }
      }
      DrainOnce(buffer);
      stop := if HeadOf(buffer).Failed? then Failing(HeadOf(buffer).code) else Idle;
    }

    /** Reads arriving one after the other, until one of them hangs the client. */
    method ReadAll(segments: seq<seq<byte>>) returns (stop: Stop)
      requires segments != []
      modifies this
      ensures var d := Feed(old(buffer), segments);
              delivered == old(delivered) + d.events && buffer == d.residue && stop == d.stop
      ensures errors == old(errors) + FeedErrors(old(buffer), segments)
    {
      hide HeadOf, Drain, Feed, FeedErrors, CodeOf;
      stop := Idle;
      ghost var log: seq<Event>, codes: seq<nat> := [], [];
      PrependTwice([], [], Feed(buffer, segments));
      assert segments[0..] == segments;
      for i := 0 to |segments|
        invariant delivered == old(delivered) + log && errors == old(errors) + codes
        invariant i < |segments| ==> Feed(old(buffer), segments) == Prepend(log, Feed(buffer, segments[i..]))
        invariant i < |segments| ==> FeedErrors(old(buffer), segments) == codes + FeedErrors(buffer, segments[i..])
        invariant i == |segments| ==> Feed(old(buffer), segments) == Drained(log, buffer, stop)
        invariant i == |segments| ==> FeedErrors(old(buffer), segments) == codes
      {
        FeedOnce(buffer, segments[i..]);
        Rest(segments, i);
        ghost var events := Drain(buffer + segments[i]).events;
        buffer := buffer + segments[i];
        stop := HandleBuffer();
        if i + 1 < |segments| {
          PrependTwice(log, events, Feed(buffer, segments[i + 1..]));
          CodesTogether(codes, CodeOf(stop), FeedErrors(buffer, segments[i + 1..]));
        }
        log, codes := log + events, codes + CodeOf(stop);
        if stop.Spinning? || stop.Undefined? {
          return;
        }
      }
    }
  }

  lemma Rest(segments: seq<seq<byte>>, i: nat)
    requires i < |segments|
    ensures segments[i..] != [] && segments[i..][0] == segments[i] && segments[i..][1..] == segments[i + 1..]
  {
  }

  lemma CodesTogether(a: seq<nat>, b: seq<nat>, c: seq<nat>)
    ensures a + (b + c) == a + b + c
  {
  }

  // ----- Sending -----

  const MAX_HEADER_SIZE := 10

  /** The header in front of `n` bytes of payload: final, masked, with a mask of zeros. */
  function ClientHeader(n: nat, op: byte): seq<byte>
    requires op < 128 && n < TWO_64
  {
    [128 + op] + [LengthBytes(n)[0] + 128] + LengthBytes(n)[1..] + [0, 0, 0, 0]
  }

  method FillHeader(outbuf: array<byte>, n: nat, op: byte) returns (pos: nat)
    requires op < 128 && n < TWO_64 && |ClientHeader(n, op)| <= outbuf.Length
    modifies outbuf
    ensures pos == |ClientHeader(n, op)| && outbuf[..pos] == ClientHeader(n, op)
    ensures forall i :: pos <= i < outbuf.Length ==> outbuf[i] == old(outbuf[i])
  {
    hide LengthBytes;
    LengthFirst(n);
    outbuf[0] := 128 + op;
    pos := FillLength(outbuf, n);
    outbuf[1] := outbuf[1] + 128;
    outbuf[pos], outbuf[pos + 1], outbuf[pos + 2], outbuf[pos + 3] := 0, 0, 0, 0;
    pos := pos + 4;
    HeaderAt(n, op);
    assert forall i :: 0 <= i < pos ==> outbuf[i] == ClientHeader(n, op)[i];
  }

  lemma LengthFirst(n: nat)
    ensures LengthBytes(n) != [] && LengthBytes(n)[0] < 128
  {
  }

  lemma HeaderAt(n: nat, op: byte)
    requires op < 128 && n < TWO_64
    ensures var l, h := LengthBytes(n), ClientHeader(n, op);
            && |h| == |l| + 5 && h[0] == 128 + op && h[1] == l[0] + 128
            && (forall i :: 2 <= i <= |l| ==> h[i] == l[i - 1])
            && forall i :: |l| < i < |h| ==> h[i] == 0
  {
  }

  method FillLength(outbuf: array<byte>, n: nat) returns (pos: nat)
    requires n < TWO_64 && 1 + |LengthBytes(n)| <= outbuf.Length
    modifies outbuf
    ensures pos == 1 + |LengthBytes(n)|
    ensures forall k :: 1 <= k < pos ==> outbuf[k] == LengthBytes(n)[k - 1]
    ensures outbuf[0] == old(outbuf[0]) && forall i :: pos <= i < outbuf.Length ==> outbuf[i] == old(outbuf[i])
  {
    pos := 1;
    if n <= 125 {
      outbuf[pos] := n;
      pos := pos + 1;
    } else if n <= 65535 {
      LargeLength(n);
      outbuf[1], outbuf[2], outbuf[3] := LENGTH_LARGE, n / 256 % 256, n % 256;
      pos := pos + 3;
    } else {
      ghost var all := [LENGTH_HUGE] + BigEndian(n, 8);
      outbuf[1] := LENGTH_HUGE;
      pos := pos + 1;
      for i := 8 downto 0
        invariant pos == 10 - i
        invariant forall k :: 1 <= k < pos ==> outbuf[k] == all[k - 1]
        invariant outbuf[0] == old(outbuf[0]) && forall i :: 10 <= i < outbuf.Length ==> outbuf[i] == old(outbuf[i])
      {
        BigEndianAt(n, 8, 7 - i);
        outbuf[pos] := n / Pow256(i) % 256;
        pos := pos + 1;
      }
    }
  }

  lemma LargeLength(n: nat)
    requires 125 < n <= 65535
    ensures BigEndian(n, 2) == [n / 256 % 256, n % 256]
  {
    assert BigEndian(n / 256, 1) == [n / 256 % 256];
  }

  /** What a server finds in a header (RFC 6455, section 5.2). */
  datatype Header = Header(fin: bool, op: nat, masked: bool, mask: seq<byte>, length: nat, size: nat)

  function ReadHeader(data: seq<byte>): Header
    requires |data| >= 14
  {
    var short := data[1] % 128;
    var start := if short == LENGTH_LARGE then 4 else if short == LENGTH_HUGE then 10 else 2;
    var masked := data[1] >= 128;
    Header(data[0] >= 128, data[0] % 16, masked,
           if masked then data[start..start + 4] else [],
           if start == 2 then short else FromBigEndian(data[2..start]),
           if masked then start + 4 else start)
  }

  /** A server reads back the opcode and length the client wrote, and a mask that changes nothing. */
  lemma ServerReads(n: nat, op: byte, rest: seq<byte>)
    requires op < 16 && n < TWO_64 && |rest| >= 8
    ensures ReadHeader(ClientHeader(n, op) + rest) == Header(true, op, true, [0, 0, 0, 0], n, |ClientHeader(n, op)|)
  {
    var l, header := LengthBytes(n), ClientHeader(n, op);
    LengthIs(n);
    HeaderAt(n, op);
    hide ClientHeader, LengthBytes, BigEndian, FromBigEndian;
    var data := header + rest;
    assert data[0] == header[0] && data[1] == header[1];
    HeaderParts(header, rest, l);
  }

  lemma HeaderParts(header: seq<byte>, rest: seq<byte>, l: seq<byte>)
    requires |l| > 0 && |header| == |l| + 5
    requires (forall i :: 2 <= i <= |l| ==> header[i] == l[i - 1]) && forall i :: |l| < i < |header| ==> header[i] == 0
    ensures (header + rest)[2..1 + |l|] == l[1..] && (header + rest)[1 + |l|..5 + |l|] == [0, 0, 0, 0]
  {
  }

  lemma LengthIs(n: nat)
    requires n < TWO_64
    ensures var l := LengthBytes(n);
            && (n <= 125 ==> l == [n])
            && (125 < n <= 65535 ==> |l| == 3 && l[0] == LENGTH_LARGE && FromBigEndian(l[1..]) == n)
            && (n > 65535 ==> |l| == 9 && l[0] == LENGTH_HUGE && FromBigEndian(l[1..]) == n)
  {
    PowValues();
    if 125 < n <= 65535 {
      assert LengthBytes(n)[1..] == BigEndian(n, 2);
      BigEndianRoundTrip(n, 2);
    } else if n > 65535 {
      assert LengthBytes(n)[1..] == BigEndian(n, 8);
      BigEndianRoundTrip(n, 8);
    }
  }

  /** The header fits the buffer its callers provide exactly for payloads of at most 65535 bytes. */
  lemma HeaderFits(n: nat, op: byte)
    requires op < 128 && n < TWO_64
    ensures |ClientHeader(n, op)| <= 10 == MAX_HEADER_SIZE <==> n <= 65535
  {
  }

  /** A masked frame is never consumed: whatever follows it, the client does not get past it. */
  lemma MaskedStays(data: seq<byte>, more: seq<byte>)
    requires |data| >= 4 && Carries(data[0] % 128) && data[1] >= 128
    ensures Drain(data + more) == Drained([], data + more, Spinning)
  {
    HeadStable(data, more);
    DrainOnce(data + more);
    hide Drain;
  }

  /** The client's own frames are of that kind. */
  lemma OwnFramesAreMasked(n: nat, op: byte, rest: seq<byte>)
    requires Carries(op) && n < TWO_64
    ensures HeadOf(ClientHeader(n, op) + rest) == Masked
  {
    var data := ClientHeader(n, op) + rest;
    assert data[0] == 128 + op && data[1] == LengthBytes(n)[0] + 128;
  }
}
