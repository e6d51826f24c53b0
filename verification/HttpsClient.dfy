/** The HTTPS client's buffer handler, after the response headers. */
module HttpsClient {
  import opened Bytes
  import opened HttpChunks

  class Client {
    var state: State
    var body: seq<byte>
    var chunkSize: nat
    var chunkReceive: nat
    var contentLength: nat
    var keepalive: bool
    var buffer: seq<byte>

    /** Where the headers leave a response: chunked or not, with the announced length. */
    constructor (chunked: bool, contentLength: nat, keepalive: bool)
      ensures Value() == Conn(if chunked then ChunkLen else Content, [], 0, 0, contentLength, keepalive, [])
    {
      this.state := if chunked then ChunkLen else Content;
      this.contentLength, this.keepalive := contentLength, keepalive;
      body, buffer := [], [];
      chunkSize, chunkReceive := 0, 0;
    }

    function Value(): Conn
      reads this
    {
      Conn(state, body, chunkSize, chunkReceive, contentLength, keepalive, buffer)
    }

    /** One pass of the loop. */
    method OnePass() returns (changed: bool, over: bool)
      requires Value().Valid()
      modifies this
      ensures Value() == Step(old(Value())).c
      ensures changed <==> Step(old(Value())).Again?
      ensures over <==> Step(old(Value())).Over?
    {
      hide StoiHex, FindCrlf;
      CrlfTest(buffer);
      changed, over := false, false;
      match state
      case ChunkContent =>
        var toRead := |buffer|;
        if chunkReceive + |buffer| > chunkSize {
          toRead := chunkSize - chunkReceive;
        }
        body := body + buffer[..toRead];
        chunkReceive := chunkReceive + toRead;
        buffer := buffer[toRead..];
        if chunkReceive >= chunkSize {
          state := ChunkTrailer;
          changed := true;
        }
      case ChunkTrailer =>
        if |buffer| >= 2 && buffer[..2] == CRLF {
          state := ChunkLen;
          buffer := buffer[2..];
          changed := true;
        }
      case ChunkLast =>
        if |buffer| >= 2 && buffer[..2] == CRLF {
          state := Done;
          over := true;
        }
      case ChunkLen =>
        var at := FindCrlf(buffer);
        if at < |buffer| {
          chunkReceive := 0;
          var line := buffer[..at];
          buffer := buffer[at + 2..];
          var size := StoiHex(line);
          if size.Invalid? {
            keepalive := false;
            over := true;
            return;
          }
          chunkSize := size.v % TWO_64;
          state := ChunkContent;
          if size.v == 0 {
            state := ChunkLast;
            chunkSize := 2;
          }
          changed := true;
        }
      case Content =>
        body := body + buffer;
        buffer := [];
        if |body| >= contentLength {
          state := Done;
          over := true;
        }
      case Done =>
        over := true;
    }

    /** Passes until nothing changes; false when the connection is finished with. */
    method HandleBuffer() returns (more: bool)
      requires Value().Valid()
      modifies this
      ensures Value() == Pump(old(Value())).c && (more <==> Pump(old(Value())).Wait?)
    {
      hide Pump, Step;
      var changed, over := true, false;
      while changed
        invariant Value().Valid()
        invariant changed ==> Pump(old(Value())) == Pump(Value()) && !over
        invariant !changed ==> Pump(old(Value())) == if over then Over(Value()) else Wait(Value())
        decreases changed, |buffer|, state == ChunkContent
      {
        PumpOnce(Value());
        changed, over := OnePass();
      }
      more := !over;
    }

    /** The read loop: every read is appended and handled, until the handler is finished with the connection. */
    method ReadLoop(segments: seq<seq<byte>>) returns (more: bool)
      requires Value().Valid()
      modifies this
      ensures Value() == Feed(old(Value()), segments).c && (more <==> Feed(old(Value()), segments).Wait?)
    {
      hide Pump;
      assert segments[0..] == segments;
      for i := 0 to |segments|
        invariant Value().Valid() && Feed(old(Value()), segments) == Feed(Value(), segments[i..])
      {
        assert segments[i..][0] == segments[i] && segments[i..][1..] == segments[i + 1..];
        buffer := buffer + segments[i];
        var again := HandleBuffer();
        if !again {
          return false;
        }
      }
      more := true;
    }
  }

  lemma PumpOnce(c: Conn)
    requires c.Valid()
    ensures Pump(c) == if Step(c).Again? then Pump(Step(c).c) else Step(c)
  {
  }

  lemma CrlfTest(s: seq<byte>)
    ensures |s| >= 2 && s[..2] == CRLF <==> StartsCrlf(s)
  {
    if |s| >= 2 {
      assert s[..2] == [s[0], s[1]];
    }
  }
}
