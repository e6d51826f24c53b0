/**
 Reordering of received voice packets: the priority of a packet, whose sequence numbers wrap around at 16 bits, and the
 timeline a batch of packets is played back on.
 */
module VoiceOrder {
  const SEQS: nat := 0x1_0000
  const STAMPS: nat := 0x1_0000_0000
  const BOUNDARY: nat := 5000

  /** A parked packet; `audio` stands for the event it carries. */
  datatype Payload = Payload(seq16: nat, timestamp: nat, audio: nat)

  predicate Valid(p: Payload)
  {
    p.seq16 < SEQS && p.timestamp < STAMPS
  }

  /** Lower priority: p is to be played after q. */
  predicate Less(p: Payload, q: Payload)
  {
    if p.timestamp != q.timestamp then p.timestamp > q.timestamp
    else if (p.seq16 < BOUNDARY && q.seq16 >= BOUNDARY) || (p.seq16 >= BOUNDARY && q.seq16 < BOUNDARY) then
      (p.seq16 + BOUNDARY) % SEQS > (q.seq16 + BOUNDARY) % SEQS
    else p.seq16 > q.seq16
  }

  /** The later timestamp comes later; within one, the higher number, but the last 5000 numbers come before the first 5000. */
  lemma OrderIs(p: Payload, q: Payload)
    requires Valid(p) && Valid(q)
    ensures p.timestamp != q.timestamp ==> (Less(p, q) <==> p.timestamp > q.timestamp)
    ensures p.timestamp == q.timestamp ==>
              (Less(p, q) <==> if p.seq16 < 5000 && q.seq16 >= 60536 then true
                               else if q.seq16 < 5000 && p.seq16 >= 60536 then false
                               else p.seq16 > q.seq16)
  {
  }

  /** How far a sequence number is past the start of a window, going round at 65536. */
  function Pos(start: nat, s: nat): (d: nat)
    requires start < SEQS && s < SEQS
    ensures d < SEQS && (start + d) % SEQS == s
  {
    if s >= start then s - start else s + SEQS - start
  }

  lemma PosOf(start: nat, n: nat)
    requires start < SEQS && n < SEQS
    ensures Pos(start, (start + n) % SEQS) == n
  {
  }

  /** One tick later. */
  lemma Tick(start: nat, n: nat)
    ensures ((start + n) % SEQS + 1) % SEQS == (start + n + 1) % SEQS
  {
  }

  lemma PosHere(tick: nat)
    requires tick < SEQS
    ensures Pos(tick, tick) == 0
  {
  }

  lemma PosAfterTick(tick: nat, s: nat)
    requires tick < SEQS && s < SEQS && s != tick
    ensures Pos((tick + 1) % SEQS, s) == Pos(tick, s) - 1
  {
  }

  /** The largest distance the boundary can bridge: windows of 5001 numbers. */
  const SPAN: nat := BOUNDARY + 1

  lemma OrderInWindow(start: nat, a: Payload, b: Payload)
    requires start < SEQS && Valid(a) && Valid(b)
    requires Pos(start, a.seq16) < Pos(start, b.seq16) < SPAN && a.timestamp <= b.timestamp
    ensures Less(b, a) && !Less(a, b)
  {
  }

  /** Exactly the windows of at most 5001 numbers are played in circular order when all timestamps agree. */
  lemma WindowLimit(length: nat)
    requires length <= SEQS
    ensures (forall start, s, t :: 0 <= start < SEQS && 0 <= s < SEQS && 0 <= t < SEQS
                                   && Pos(start, s) < Pos(start, t) < length
                                   ==> Less(Payload(t, 0, 0), Payload(s, 0, 0)))
        <==> length <= SPAN
  {
    if length <= SPAN {
      forall start, s, t | 0 <= start < SEQS && 0 <= s < SEQS && 0 <= t < SEQS
                           && Pos(start, s) < Pos(start, t) < length
        ensures Less(Payload(t, 0, 0), Payload(s, 0, 0))
      {
        OrderInWindow(start, Payload(s, 0, 0), Payload(t, 0, 0));
      }
    } else {
      assert Pos(65535, 65535) == 0 && Pos(65535, 5000) == 5001;
      assert !Less(Payload(5000, 0, 0), Payload(65535, 0, 0));
    }
  }

  /**
   A batch that fits a window: its numbers lie within the span from its start, no number occurs twice, and timestamps do
   not decrease along the window.
   */
  ghost predicate InWindow(start: nat, batch: multiset<Payload>)
    requires start < SEQS
  {
    && (forall p :: p in batch ==> batch[p] == 1 && Valid(p) && Pos(start, p.seq16) < SPAN)
    && (forall p, q :: p in batch && q in batch && p != q ==> p.seq16 != q.seq16)
    && (forall p, q :: p in batch && q in batch && Pos(start, p.seq16) <= Pos(start, q.seq16) ==>
                         p.timestamp <= q.timestamp)
  }

  /** In a window the priority is the position: a strict total order, whatever the wrap-around. */
  lemma PriorityIsPosition(start: nat, batch: multiset<Payload>, p: Payload, q: Payload)
    requires start < SEQS && InWindow(start, batch) && p in batch && q in batch
    ensures Less(q, p) <==> Pos(start, p.seq16) < Pos(start, q.seq16)
    ensures p != q ==> Less(p, q) || Less(q, p)
  {
    if p != q {
      assert p.seq16 != q.seq16;
      if Pos(start, p.seq16) < Pos(start, q.seq16) {
        OrderInWindow(start, p, q);
      } else {
        OrderInWindow(start, q, p);
      }
    }
  }

  /** The front of the priority queue: nothing goes before it. */
  ghost predicate IsTop(queue: multiset<Payload>, top: Payload)
  {
    top in queue && forall q :: q in queue ==> !Less(top, q)
  }

  /** What playback does at one tick of the sequence number. */
  datatype Event = Conceal(seq16: nat) | Decode(p: Payload)

  function Decoded(events: seq<Event>): multiset<Payload>
  {
    if events == [] then multiset{}
    else Decoded(events[..|events| - 1])
         + if events[|events| - 1].Decode? then multiset{events[|events| - 1].p} else multiset{}
  }

  lemma DecodedSnoc(events: seq<Event>, e: Event)
    ensures Decoded(events + [e]) == Decoded(events) + if e.Decode? then multiset{e.p} else multiset{}
  {
    assert (events + [e])[..|events|] == events;
  }

  /** One event per number from the start: the packet of that number, or a concealment when there is none. */
  ghost predicate OnTime(start: nat, batch: multiset<Payload>, events: seq<Event>)
    requires start < SEQS
  {
    forall i :: 0 <= i < |events| ==>
      match events[i]
      case Decode(p) => p in batch && p.seq16 == (start + i) % SEQS
      case Conceal(s) => s == (start + i) % SEQS && forall p :: p in batch ==> p.seq16 != s
  }

  lemma OnTimeSnoc(start: nat, batch: multiset<Payload>, events: seq<Event>, e: Event)
    requires start < SEQS && OnTime(start, batch, events)
    requires match e
             case Decode(p) => p in batch && p.seq16 == (start + |events|) % SEQS
             case Conceal(s) => s == (start + |events|) % SEQS && forall p :: p in batch ==> p.seq16 != s
    ensures OnTime(start, batch, events + [e])
  {
  }

  /** A whole timeline: it ends with the last packet. */
  ghost predicate Timeline(start: nat, batch: multiset<Payload>, events: seq<Event>)
    requires start < SEQS
  {
    && OnTime(start, batch, events)
    && (events != [] ==> events[|events| - 1].Decode?)
    && forall p :: p in batch ==> Valid(p) && Pos(start, p.seq16) < |events| && events[Pos(start, p.seq16)] == Decode(p)
  }

  /** A batch has one timeline. */
  lemma TimelineIsUnique(start: nat, batch: multiset<Payload>, a: seq<Event>, b: seq<Event>)
    requires start < SEQS && |a| <= SEQS && |b| <= SEQS
    requires Timeline(start, batch, a) && Timeline(start, batch, b)
    ensures a == b
  {
    SameUpTo(start, batch, a, b);
    SameUpTo(start, batch, b, a);
  }

  lemma SameUpTo(start: nat, batch: multiset<Payload>, a: seq<Event>, b: seq<Event>)
    requires start < SEQS && |a| <= SEQS
    requires Timeline(start, batch, a) && Timeline(start, batch, b)
    ensures |a| <= |b| && forall i :: 0 <= i < |a| ==> a[i] == b[i]
  {
    if a != [] {
      var last := a[|a| - 1];
      assert last.p in batch;
      assert Pos(start, last.p.seq16) == |a| - 1;
    }
    forall i | 0 <= i < |a| ensures a[i] == b[i] {
      if a[i].Decode? {
        assert Pos(start, a[i].p.seq16) == i;
      }
    }
  }
}
