/**
 The sending half of a connection: what was written waits in a queue, goes through a fixed buffer and leaves it in as many
 pieces as the socket takes. What the socket does with each attempt is a parameter.
 */
module SendPath {
  import opened Bytes

  const BUFSIZE := 16384

  /** What an attempt to send comes to: so many bytes taken, a wait for one direction or the other, or the end. */
  datatype Outcome = Took(n: nat) | WantWrite | WantRead | Failed

  /** The queue, the part of the buffer still to be sent and where it begins, and what has gone out. */
  datatype Line = Line(queue: seq<byte>, live: seq<byte>, offset: nat, blockedOnRead: bool, wire: seq<byte>, open: bool)

  const FRESH: Line := Line([], [], 0, false, [], true)

  predicate Ok(l: Line)
  {
    l.offset + |l.live| <= BUFSIZE
  }

  function Min(a: nat, b: nat): nat
  {
    if a > b then b else a
  }

  /** An empty buffer takes what fits of the queue. */
  function Refilled(l: Line): Line
  {
    if l.queue != [] && l.live == [] then
      var n := Min(|l.queue|, BUFSIZE);
      l.(queue := l.queue[n..], live := l.queue[..n], offset := 0)
    else l
  }

  function Sent(l: Line, o: Outcome): Line
  {
    match o
    case Took(n) =>
      var k := Min(n, |l.live|);
      l.(live := l.live[k..], offset := l.offset + k, blockedOnRead := false, wire := l.wire + l.live[..k])
    case WantWrite => l.(blockedOnRead := false)
    case WantRead => l.(blockedOnRead := true)
    case Failed => l.(blockedOnRead := false, open := false)
  }

  /** One round of the loop after its reading: readable and writeable are what the poll said. */
  function Round(l: Line, readable: bool, writeable: bool, o: Outcome): Line
  {
    if !l.open then l
    else
      var m := Refilled(l);
      if (writeable && m.live != []) || (m.blockedOnRead && readable) then Sent(m, o) else m
  }

  /** What one round does: an empty buffer takes up to 16384 bytes, and a send is tried, or not, by what was waited for. */
  lemma RoundIs(l: Line, readable: bool, writeable: bool, o: Outcome)
    ensures !l.open ==> Round(l, readable, writeable, o) == l
    ensures l.open ==>
              var n := if l.live != [] then 0 else if |l.queue| < 16384 then |l.queue| else 16384;
              var live := if l.live != [] then l.live else l.queue[..n];
              var r := Round(l, readable, writeable, o);
              && r.queue == l.queue[n..]
              && if (writeable && live != []) || (readable && l.blockedOnRead) then
                   match o
                   case Took(k) =>
                     var taken := if k < |live| then k else |live|;
                     r.wire == l.wire + live[..taken] && r.live == live[taken..] && !r.blockedOnRead && r.open
                   case WantWrite => r.wire == l.wire && r.live == live && !r.blockedOnRead && r.open
                   case WantRead => r.wire == l.wire && r.live == live && r.blockedOnRead && r.open
                   case Failed => r.wire == l.wire && r.live == live && !r.open
                 else r.wire == l.wire && r.live == live && r.blockedOnRead == l.blockedOnRead && r.open
  {
    if l.queue == [] { assert l.queue[0..] == l.queue && l.queue[..0] == []; }
    assert l.queue[0..] == l.queue;
  }

  datatype Event = Write(data: seq<byte>) | Poll(readable: bool, writeable: bool, o: Outcome)

  function Next(l: Line, e: Event): Line
  {
    match e
    case Write(data) => l.(queue := l.queue + data)
    case Poll(readable, writeable, o) => Round(l, readable, writeable, o)
  }

  function After(l: Line, events: seq<Event>): Line
    decreases |events|
  {
    if events == [] then l else After(Next(l, events[0]), events[1..])
  }

  /** Everything on the line, in order: out, under way and waiting. */
  function Contents(l: Line): seq<byte>
  {
    l.wire + l.live + l.queue
  }

  function Written(events: seq<Event>): seq<byte>
    decreases |events|
  {
    if events == [] then []
    else (if events[0].Write? then events[0].data else []) + Written(events[1..])
  }

  lemma RefillKeeps(l: Line)
    requires Ok(l)
    ensures Ok(Refilled(l)) && Contents(Refilled(l)) == Contents(l)
  {
    if l.queue != [] && l.live == [] {
      var n := Min(|l.queue|, BUFSIZE);
      assert l.wire + l.queue[..n] + l.queue[n..] == l.wire + (l.queue[..n] + l.queue[n..]);
    }
  }

  lemma SendKeeps(l: Line, o: Outcome)
    requires Ok(l)
    ensures Ok(Sent(l, o)) && Contents(Sent(l, o)) == Contents(l)
  {
    if o.Took? {
      var k := Min(o.n, |l.live|);
      assert l.wire + l.live[..k] + l.live[k..] == l.wire + (l.live[..k] + l.live[k..]);
    }
  }

  lemma NextKeeps(l: Line, e: Event)
    requires Ok(l)
    ensures Ok(Next(l, e)) && l.wire <= Next(l, e).wire
    ensures Contents(Next(l, e)) == Contents(l) + if e.Write? then e.data else []
  {
    match e
    case Write(data) => assert l.wire + l.live + (l.queue + data) == l.wire + l.live + l.queue + data;
    case Poll(readable, writeable, o) =>
      RefillKeeps(l);
      SendKeeps(Refilled(l), o);
  }

  /** Whatever is written when, and however little is taken at a time: nothing is lost, doubled or out of order. */
  lemma {:induction false} NothingIsLost(l: Line, events: seq<Event>)
    requires Ok(l)
    ensures Ok(After(l, events)) && l.wire <= After(l, events).wire
    ensures Contents(After(l, events)) == Contents(l) + Written(events)
    decreases |events|
  {
    if events != [] {
      var e := events[0];
      NextKeeps(l, e);
      NothingIsLost(Next(l, e), events[1..]);
      var data := if e.Write? then e.data else [];
      assert Contents(l) + data + Written(events[1..]) == Contents(l) + (data + Written(events[1..]));
    }
  }

  /** The wire never carries anything but the beginning of what was written. */
  lemma WireIsAPrefix(events: seq<Event>)
    ensures After(FRESH, events).wire <= Written(events)
  {
    NothingIsLost(FRESH, events);
    var l := After(FRESH, events);
    assert Contents(FRESH) + Written(events) == Written(events);
    assert l.wire <= l.wire + (l.live + l.queue) == Contents(l);
  }

  function Backlog(l: Line): nat
  {
    |l.live| + |l.queue|
  }

  /** A round that can write and takes anything leaves less to be sent; so the line drains. */
  lemma RoundDrains(l: Line, readable: bool, o: Outcome)
    requires Ok(l) && l.open && Backlog(l) > 0 && o.Took? && o.n > 0
    ensures Backlog(Round(l, readable, true, o)) < Backlog(l) && Round(l, readable, true, o).open
  {
  }

  /** A round in which the socket can be written to and takes at least one byte. */
  predicate Takes(e: Event)
  {
    e.Poll? && e.writeable && e.o.Took? && e.o.n > 0
  }

  /** With a socket that always takes something, as many rounds as there are bytes put everything on the wire. */
  lemma {:induction false} LineDrains(l: Line, rounds: seq<Event>)
    requires Ok(l) && l.open && Backlog(l) <= |rounds| && forall e :: e in rounds ==> Takes(e)
    ensures Backlog(After(l, rounds)) == 0
    ensures After(l, rounds).wire == Contents(l)
    decreases |rounds|
  {
    if rounds == [] {
      assert l.wire + [] + [] == l.wire;
    } else {
      var e := rounds[0];
      assert Takes(e);
      NextKeeps(l, e);
      assert Contents(l) + [] == Contents(l);
      if Backlog(l) > 0 {
        RoundDrains(l, e.readable, e.o);
      }
      LineDrains(Next(l, e), rounds[1..]);
    }
  }

  // ----- In place -----

  lemma Slices(a: array<byte>, from: nat, length: nat, n: nat)
    requires from + length <= a.Length && n <= length
    ensures a[from..from + length][..n] == a[from..from + n]
    ensures a[from..from + length][n..] == a[from + n..from + n + (length - n)]
  {
  }

  class SslClient {
    var obuffer: seq<byte>
    const buffer: array<byte>
    var length: nat
    var offset: nat
    var blockedOnRead: bool
    var nonblocking: bool
    var open: bool
    var wire: seq<byte>

    ghost predicate Valid()
      reads this
    {
      buffer.Length == BUFSIZE && offset + length <= BUFSIZE
    }

    constructor ()
      ensures Valid() && fresh(buffer) && Value() == FRESH && !nonblocking
    {
      buffer := new byte[BUFSIZE];
      obuffer, length, offset, blockedOnRead, nonblocking, open, wire := [], 0, 0, false, false, true, [];
    }

    ghost function Value(): Line
      reads this, buffer
      requires Valid()
    {
      Line(obuffer, buffer[offset..offset + length], offset, blockedOnRead, wire, open)
    }

    /** Before the loop runs the data goes out at once, or not whole and the connection fails. */
    method Put(data: seq<byte>, taken: int) returns (ok: bool)
      requires Valid()
      modifies this
      ensures Valid() && nonblocking == old(nonblocking)
      ensures old(nonblocking) ==> ok && Value() == Next(old(Value()), Write(data))
      ensures !old(nonblocking) ==> (ok <==> taken == |data|)
      ensures !old(nonblocking) ==> Value() == if ok then old(Value()).(wire := old(wire) + data) else old(Value())
    {
      if nonblocking {
        obuffer := obuffer + data;
        return true;
      }
      if taken != |data| {
        return false;
      }
      wire := wire + data;
      return true;
    }

    method Refill()
      requires Valid()
      modifies this, buffer
      ensures Valid() && Value() == Refilled(old(Value()))
      ensures nonblocking == old(nonblocking)
    {
      if obuffer != [] && length == 0 {
        var n := if |obuffer| > BUFSIZE then BUFSIZE else |obuffer|;
        for i := 0 to n
          invariant Valid() && obuffer == old(obuffer) && buffer[..i] == obuffer[..i]
          invariant blockedOnRead == old(blockedOnRead) && wire == old(wire)
          invariant open == old(open) && nonblocking == old(nonblocking)
        {
          buffer[i] := obuffer[i];
        }
        length := n;
        obuffer := obuffer[n..];
        offset := 0;
      }
    }

    /** The socket takes no more than it is given. */
    method SendSome(o: Outcome)
      requires Valid() && (o.Took? ==> o.n <= length)
      modifies this
      ensures Valid() && Value() == Sent(old(Value()), o)
      ensures nonblocking == old(nonblocking)
    {
      blockedOnRead := false;
      match o
      case Took(n) => Taken(n);
      case WantWrite =>
      case WantRead => blockedOnRead := true;
      case Failed => open := false;
    }

    method Taken(n: nat)
      requires Valid() && n <= length
      modifies this
      ensures Valid() && nonblocking == old(nonblocking)
      ensures var l := old(Value());
              Value() == l.(live := l.live[n..], offset := l.offset + n, wire := l.wire + l.live[..n])
    {
      Slices(buffer, offset, length, n);
      wire := wire + buffer[offset..offset + n];
      length := length - n;
      offset := offset + n;
    }

    method PollOnce(readable: bool, writeable: bool, o: Outcome)
      requires Valid() && open && (o.Took? ==> o.n <= |Refilled(Value()).live|)
      modifies this, buffer
      ensures Valid() && Value() == Next(old(Value()), Poll(readable, writeable, o))
    {
      Refill();
      if (writeable && length != 0) || (blockedOnRead && readable) {
        SendSome(o);
      }
    }
  }
}
