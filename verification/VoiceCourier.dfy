/** The voice courier: parking packets, handing them over, and draining a batch. */
module VoiceCourier {
  import opened VoiceOrder

  /** A maximal element when the batch has one; a heap over an order that is not one may show anything. */
  method Top(queue: multiset<Payload>) returns (top: Payload)
    requires queue != multiset{}
    ensures top in queue
    ensures (exists m :: IsTop(queue, m)) ==> IsTop(queue, top)
  {
    var any :| any in queue;
    top := any;
    if m :| m in queue && forall q :: q in queue ==> !Less(m, q) {
      top := m;
    }
  }

  /** Where the drain stands: the decoded and the queued make up the batch, and the ticks spent are accounted for. */
  ghost predicate Going(batch: multiset<Payload>, queue: multiset<Payload>, top: Payload, events: seq<Event>, tick: nat)
    requires tick < SEQS
  {
    && queue <= batch && Decoded(events) + queue == batch
    && (queue != multiset{} ==>
          top in queue && top.seq16 < SEQS && Spent(|events| + Pos(tick, top.seq16), |batch| - |queue|))
    && (queue == multiset{} ==> |events| <= SEQS * |batch| && events != [] && events[|events| - 1].Decode?)
  }

  lemma GoingAtFirst(batch: multiset<Payload>, top: Payload, tick: nat)
    requires tick < SEQS && top.seq16 < SEQS && top in batch
    ensures Going(batch, batch, top, [], tick)
  {
    hide Pos, Decoded, Spent;
    SpentAtFirst(tick, top.seq16);
    EmptyDecoded();
  }

  /** A number nobody has: the gap is concealed. */
  lemma GoingPastAGap(batch: multiset<Payload>, queue: multiset<Payload>, top: Payload, events: seq<Event>, tick: nat)
    requires tick < SEQS && Going(batch, queue, top, events, tick) && queue != multiset{} && top.seq16 != tick
    ensures Going(batch, queue, top, events + [Conceal(tick)], (tick + 1) % SEQS)
    ensures Pos((tick + 1) % SEQS, top.seq16) < Pos(tick, top.seq16)
  {
    var next := (tick + 1) % SEQS;
    PosAfterTick(tick, top.seq16);
    hide Pos, Decoded, Spent;
    SpentSame(|events|, tick, top.seq16, |batch| - |queue|);
    DecodedSnoc(events, Conceal(tick));
  }

  /** The packet of this number is decoded; the next on top is whichever the rest of the queue shows. */
  lemma GoingWithOneLess(batch: multiset<Payload>, queue: multiset<Payload>, top: Payload, events: seq<Event>, tick: nat,
                         next: Payload)
    requires tick < SEQS && Going(batch, queue, top, events, tick) && queue != multiset{} && top.seq16 == tick
    requires queue - multiset{top} != multiset{} ==> next in queue - multiset{top} && next.seq16 < SEQS
    ensures Going(batch, queue - multiset{top}, next, events + [Decode(top)], (tick + 1) % SEQS)
    ensures |queue - multiset{top}| < |queue|
  {
    PosHere(tick);
    hide Pos, Decoded, Spent;
    TakeOne(Decoded(events), queue, top);
    DecodedSnoc(events, Decode(top));
    SpentOneMore(|events|, |batch| - |queue|, (tick + 1) % SEQS, if next.seq16 < SEQS then next.seq16 else 0);
  }

  /**
   The drain loop. It ends for every batch, decodes every packet of it once, and spends at most 65536 ticks on each; a
   batch that fits a window from `minSeq` is played on its timeline.
   */
  method Drain(minSeq: nat, batch: multiset<Payload>) returns (events: seq<Event>)
    requires minSeq < SEQS && forall p :: p in batch ==> Valid(p)
    ensures Decoded(events) == batch
    ensures |events| <= SEQS * |batch|
    ensures InWindow(minSeq, batch) ==> Timeline(minSeq, batch, events) && |events| <= SPAN
  {
    hide InWindow, IsTop, Timeline, OnTime, Progress, Less, Pos, Decoded, Spent;
    events := [];
    ghost var windowed := InWindow(minSeq, batch);
    if batch == multiset{} {
      if windowed { NothingToPlay(minSeq); }
      EmptyDecoded();
      return;
    }
    var queue, tick := batch, minSeq;
    var top := Top(queue);
    assert Valid(top);
    GoingAtFirst(batch, top, tick);
    if windowed { Start(minSeq, batch, top); }
    while queue != multiset{}
      invariant tick == (minSeq + |events|) % SEQS
      invariant Going(batch, queue, top, events, tick)
      invariant windowed ==> Progress(minSeq, batch, queue, top, events)
      decreases |queue|, if queue == multiset{} then 0 else Pos(tick, top.seq16)
    {
      Tick(minSeq, |events|);
      if top.seq16 != tick {
        if windowed { ConcealGoesOn(minSeq, batch, queue, top, events); }
        GoingPastAGap(batch, queue, top, events, tick);
        events := events + [Conceal(tick)];
      } else {
        ghost var was, before, played := top, queue, events;
        events := events + [Decode(top)];
        queue := queue - multiset{top};
        if queue != multiset{} {
          top := Top(queue);
          assert top in batch && Valid(top);
        }
        hide Going;
        GoingWithOneLess(batch, before, was, played, tick, top);
        if windowed { DecodeGoesOn(minSeq, batch, before, was, played, top); }
      }
      tick := (tick + 1) % SEQS;
    }
    if windowed { Finish(minSeq, batch, top, events); }
  }

  /** The ticks spent leave enough for every packet still to come. */
  predicate Spent(ticks: nat, decoded: int)
  {
    ticks < SEQS * (decoded + 1)
  }

  lemma SpentAtFirst(tick: nat, seq16: nat)
    requires tick < SEQS && seq16 < SEQS
    ensures Spent(Pos(tick, seq16), 0)
  {
  }

  lemma SpentSame(ticks: nat, tick: nat, seq16: nat, decoded: int)
    requires tick < SEQS && seq16 < SEQS && tick != seq16 && Spent(ticks + Pos(tick, seq16), decoded)
    ensures Spent(ticks + 1 + Pos((tick + 1) % SEQS, seq16), decoded)
  {
    PosAfterTick(tick, seq16);
  }

  lemma SpentOneMore(ticks: nat, decoded: int, tick: nat, seq16: nat)
    requires tick < SEQS && seq16 < SEQS && Spent(ticks, decoded)
    ensures Spent(ticks + 1 + Pos(tick, seq16), decoded + 1) && ticks + 1 <= SEQS * (decoded + 1)
  {
  }

  lemma TakeOne(done: multiset<Payload>, queue: multiset<Payload>, p: Payload)
    requires p in queue
    ensures done + multiset{p} + (queue - multiset{p}) == done + queue
    ensures |queue - multiset{p}| == |queue| - 1 && queue - multiset{p} <= queue
  {
  }

  lemma EmptyDecoded()
    ensures Decoded([]) == multiset{}
  {
  }

  lemma NothingToPlay(start: nat)
    requires start < SEQS
    ensures Timeline(start, multiset{}, [])
  {
  }

  lemma Start(start: nat, batch: multiset<Payload>, top: Payload)
    requires start < SEQS && InWindow(start, batch) && top in batch
    requires (exists m :: IsTop(batch, m)) ==> IsTop(batch, top)
    ensures Progress(start, batch, batch, top, [])
  {
    FirstTop(start, batch, batch, top);
  }

  lemma ConcealGoesOn(start: nat, batch: multiset<Payload>, queue: multiset<Payload>, top: Payload, events: seq<Event>)
    requires start < SEQS && Progress(start, batch, queue, top, events) && queue != multiset{}
    requires top.seq16 != (start + |events|) % SEQS
    ensures Progress(start, batch, queue, top, events + [Conceal((start + |events|) % SEQS)])
  {
    hide InWindow, IsTop, Less;
    NobodyHere(start, batch, queue, top, events);
  }

  lemma DecodeGoesOn(start: nat, batch: multiset<Payload>, queue: multiset<Payload>, top: Payload, events: seq<Event>,
                     next: Payload)
    requires start < SEQS && Progress(start, batch, queue, top, events) && queue != multiset{}
    requires top.seq16 == (start + |events|) % SEQS
    requires var rest := queue - multiset{top};
             rest != multiset{} ==> next in rest && ((exists m :: IsTop(rest, m)) ==> IsTop(rest, next))
    ensures Progress(start, batch, queue - multiset{top}, next, events + [Decode(top)])
  {
    hide Less, Pos, OnTime;
    var rest, played := queue - multiset{top}, events + [Decode(top)];
    assert top in queue && top in batch && batch[top] == 1;
    PosOf(start, |events|);
    OnTimeSnoc(start, batch, events, Decode(top));
    if rest != multiset{} { FirstTop(start, batch, rest, next); }
    RestLiesAhead(start, batch, queue, top, |events|);
    hide InWindow, IsTop;
    forall p | p in batch && p !in rest
      ensures Pos(start, p.seq16) < |played| && played[Pos(start, p.seq16)] == Decode(p)
    {
      assert p == top || p !in queue;
    }
  }

  lemma RestLiesAhead(start: nat, batch: multiset<Payload>, queue: multiset<Payload>, top: Payload, n: nat)
    requires start < SEQS && InWindow(start, batch) && queue <= batch && top in queue && Pos(start, top.seq16) == n
    requires forall p :: p in queue ==> Pos(start, p.seq16) >= n
    ensures forall p :: p in queue - multiset{top} ==> Pos(start, p.seq16) >= n + 1
  {
    hide Less, Pos;
    forall p | p in queue - multiset{top}
      ensures Pos(start, p.seq16) >= n + 1
    {
      assert p in queue && p in batch && batch[top] == 1;
      assert p != top;
      if Pos(start, p.seq16) == n { SamePos(start, p.seq16, top.seq16); }
    }
  }

  lemma SamePos(start: nat, s: nat, t: nat)
    requires start < SEQS && s < SEQS && t < SEQS && Pos(start, s) == Pos(start, t)
    ensures s == t
  {
  }

  lemma Finish(start: nat, batch: multiset<Payload>, top: Payload, events: seq<Event>)
    requires start < SEQS && Progress(start, batch, multiset{}, top, events)
    requires events != [] ==> events[|events| - 1].Decode?
    ensures Timeline(start, batch, events) && |events| <= SPAN
  {
  }

  /** Where a drain of a windowed batch stands: played up to here, and everything left lies ahead. */
  ghost predicate Progress(start: nat, batch: multiset<Payload>, queue: multiset<Payload>, top: Payload, events: seq<Event>)
    requires start < SEQS
  {
    && InWindow(start, batch) && queue <= batch
    && OnTime(start, batch, events)
    && |events| <= SPAN
    && (queue != multiset{} ==> IsTop(queue, top))
    && (forall p :: p in queue ==> Pos(start, p.seq16) >= |events|)
    && (forall p :: p in batch && p !in queue ==>
          Pos(start, p.seq16) < |events| && events[Pos(start, p.seq16)] == Decode(p))
  }

  lemma FirstTop(start: nat, batch: multiset<Payload>, queue: multiset<Payload>, top: Payload)
    requires start < SEQS && InWindow(start, batch) && queue <= batch && top in queue
    requires (exists m :: IsTop(queue, m)) ==> IsTop(queue, top)
    ensures IsTop(queue, top)
  {
    var m := Earliest(start, batch, queue);
    forall q | q in queue ensures !Less(m, q) {
      PriorityIsPosition(start, batch, q, m);
    }
    assert IsTop(queue, m);
  }

  lemma Earliest(start: nat, batch: multiset<Payload>, queue: multiset<Payload>) returns (m: Payload)
    requires start < SEQS && InWindow(start, batch) && queue <= batch && queue != multiset{}
    ensures m in queue && forall q :: q in queue ==> Pos(start, m.seq16) <= Pos(start, q.seq16)
    decreases |queue|
  {
    m :| m in queue;
    if q :| q in queue && Pos(start, q.seq16) < Pos(start, m.seq16) {
      var without := queue - multiset{m};
      assert q in without;
      var e := Earliest(start, batch, without);
      m := e;
    }
  }

  /** When the front of the queue has another number, nobody has this one. */
  lemma NobodyHere(start: nat, batch: multiset<Payload>, queue: multiset<Payload>, top: Payload, events: seq<Event>)
    requires start < SEQS && Progress(start, batch, queue, top, events) && queue != multiset{}
    requires top.seq16 != (start + |events|) % SEQS
    ensures forall p :: p in batch ==> p.seq16 != (start + |events|) % SEQS
    ensures |events| < BOUNDARY && forall p :: p in queue ==> Pos(start, p.seq16) > |events|
  {
    hide Less, OnTime;
    PosOf(start, |events|);
    assert top in queue && Pos(start, top.seq16) > |events|;
    forall p | p in queue ensures Pos(start, p.seq16) > |events| {
      assert !Less(top, p);
      PriorityIsPosition(start, batch, p, top);
    }
    forall p | p in batch ensures p.seq16 != (start + |events|) % SEQS {
      if p !in queue { assert Pos(start, p.seq16) < |events|; }
    }
  }

  /** One speaker's parked packets between two flushes, and where the next batch starts. */
  datatype Lot = Lot(
    hasDecoder: bool,
    minSeq: nat, maxSeq: nat, minTimestamp: nat, maxTimestamp: nat,
    parked: seq<Payload>
  )

  const NEW_LOT: Lot := Lot(false, 0, 0, 0, 0, [])

  predicate TooLate(lot: Lot, p: Payload)
  {
    lot.hasDecoder && p.seq16 < lot.minSeq && p.timestamp < lot.minTimestamp
  }

  function Received(lot: Lot, p: Payload): Lot
  {
    var l := if lot.hasDecoder then lot else lot.(hasDecoder := true, minSeq := p.seq16, minTimestamp := p.timestamp);
    if TooLate(lot, p) then l else l.(parked := l.parked + [p], maxSeq := p.seq16, maxTimestamp := p.timestamp)
  }

  function HandedOver(lot: Lot): Lot
  {
    lot.(parked := [], minSeq := (lot.maxSeq + 1) % SEQS, minTimestamp := (lot.maxTimestamp + 1) % STAMPS)
  }

  // ----- Whole runs -----

  /** A packet comes in, or the courier takes what is parked; without handlers it only drops it. */
  datatype LotStep = Arrive(p: Payload) | Flush(heard: bool)

  function Stepped(lot: Lot, step: LotStep): Lot
  {
    match step
    case Arrive(p) => Received(lot, p)
    case Flush(_) => HandedOver(lot)
  }

  function LotAfter(lot: Lot, steps: seq<LotStep>): Lot
    decreases |steps|
  {
    if steps == [] then lot else LotAfter(Stepped(lot, steps[0]), steps[1..])
  }

  /** What the drain loop may make of a batch. */
  ghost predicate Drained(start: nat, batch: multiset<Payload>, events: seq<Event>)
  {
    && Decoded(events) == batch && |events| <= SEQS * |batch|
    && (start < SEQS && InWindow(start, batch) ==> Timeline(start, batch, events) && |events| <= SPAN)
  }

  /** The speaker's run, with what is played in each of its steps. */
  ghost predicate Plays(lot: Lot, steps: seq<LotStep>, played: seq<seq<Event>>)
    decreases |steps|
  {
    && |played| == |steps|
    && (steps != [] ==>
          && (if steps[0] == Flush(true) then Drained(lot.minSeq, multiset(lot.parked), played[0]) else played[0] == [])
          && Plays(Stepped(lot, steps[0]), steps[1..], played[1..]))
  }

  function AllDecoded(played: seq<seq<Event>>): multiset<Payload>
  {
    if played == [] then multiset{} else Decoded(played[0]) + AllDecoded(played[1..])
  }

  /** The packets that did not come too late. */
  function Accepted(lot: Lot, steps: seq<LotStep>): multiset<Payload>
    decreases |steps|
  {
    if steps == [] then multiset{}
    else
      (if steps[0].Arrive? && !TooLate(lot, steps[0].p) then multiset{steps[0].p} else multiset{})
      + Accepted(Stepped(lot, steps[0]), steps[1..])
  }

  /** The packets taken while there were no handlers. */
  function Unheard(lot: Lot, steps: seq<LotStep>): multiset<Payload>
    decreases |steps|
  {
    if steps == [] then multiset{}
    else
      (if steps[0] == Flush(false) then multiset(lot.parked) else multiset{}) + Unheard(Stepped(lot, steps[0]), steps[1..])
  }

  /** Whatever arrives when, and however often it is flushed: what was accepted is decoded once, dropped unheard or still parked. */
  lemma {:induction false} NothingIsLost(lot: Lot, steps: seq<LotStep>, played: seq<seq<Event>>)
    requires Plays(lot, steps, played)
    ensures multiset(lot.parked) + Accepted(lot, steps)
            == AllDecoded(played) + Unheard(lot, steps) + multiset(LotAfter(lot, steps).parked)
    decreases |steps|
  {
    hide Drained;
    if steps != [] {
      var step, next := steps[0], Stepped(lot, steps[0]);
      NothingIsLost(next, steps[1..], played[1..]);
      StepBalances(lot, step, played[0]);
      var gone := if step == Flush(false) then multiset(lot.parked) else multiset{};
      var come := if step.Arrive? && !TooLate(lot, step.p) then multiset{step.p} else multiset{};
      hide TooLate, Stepped, Decoded;
      Balances(multiset(lot.parked), come, Decoded(played[0]), gone, multiset(next.parked), Accepted(next, steps[1..]),
               AllDecoded(played[1..]), Unheard(next, steps[1..]), multiset(LotAfter(lot, steps).parked));
    }
  }

  lemma Balances(parked: multiset<Payload>, come: multiset<Payload>, done: multiset<Payload>, gone: multiset<Payload>,
                 next: multiset<Payload>, accepted: multiset<Payload>, decoded: multiset<Payload>, unheard: multiset<Payload>,
                 last: multiset<Payload>)
    requires parked + come == done + gone + next && next + accepted == decoded + unheard + last
    ensures parked + (come + accepted) == (done + decoded) + (gone + unheard) + last
  {
    var left, right := parked + (come + accepted), (done + decoded) + (gone + unheard) + last;
    forall p: Payload
      ensures left[p] == right[p]
    {
      assert (parked + come)[p] == (done + gone + next)[p];
      assert (next + accepted)[p] == (decoded + unheard + last)[p];
    }
  }

  lemma StepBalances(lot: Lot, step: LotStep, events: seq<Event>)
    requires if step == Flush(true) then Drained(lot.minSeq, multiset(lot.parked), events) else events == []
    ensures var gone := if step == Flush(false) then multiset(lot.parked) else multiset{};
            var come := if step.Arrive? && !TooLate(lot, step.p) then multiset{step.p} else multiset{};
            multiset(lot.parked) + come == Decoded(events) + gone + multiset(Stepped(lot, step).parked)
  {
    EmptyDecoded();
    if step.Arrive? {
      assert multiset(lot.parked + [step.p]) == multiset(lot.parked) + multiset{step.p};
    }
  }

  class ParkingLot {
    var hasDecoder: bool
    var minSeq: nat
    var maxSeq: nat
    var minTimestamp: nat
    var maxTimestamp: nat
    var parked: seq<Payload>

    function Value(): Lot
      reads this
    {
      Lot(hasDecoder, minSeq, maxSeq, minTimestamp, maxTimestamp, parked)
    }

    predicate Ok()
      reads this
    {
      minSeq < SEQS && maxSeq < SEQS && forall p :: p in parked ==> Valid(p)
    }

    constructor ()
      ensures Value() == NEW_LOT && Ok()
    {
      hasDecoder := false;
      minSeq, maxSeq, minTimestamp, maxTimestamp := 0, 0, 0, 0;
      parked := [];
    }

    /** Parks a packet, unless both its number and its timestamp are below the range. */
    method Receive(p: Payload)
      modifies this
      ensures Value() == Received(old(Value()), p)
      ensures old(Ok()) && Valid(p) ==> Ok()
    {
      if !hasDecoder {
        minSeq, minTimestamp := p.seq16, p.timestamp;
        hasDecoder := true;
      }
      if p.seq16 < minSeq && p.timestamp < minTimestamp {
        return;
      }
      maxSeq, maxTimestamp := p.seq16, p.timestamp;
      parked := parked + [p];
    }

    /** Everything parked goes over; the next batch starts after the latest arrival. */
    method HandOver() returns (start: nat, batch: seq<Payload>)
      modifies this
      ensures start == old(minSeq) && batch == old(parked)
      ensures Value() == HandedOver(old(Value()))
      ensures old(Ok()) ==> Ok()
    {
      start, batch := minSeq, parked;
      parked := [];
      minSeq, minTimestamp := (maxSeq + 1) % SEQS, (maxTimestamp + 1) % STAMPS;
    }

    /** One turn of the courier for this speaker. */
    method Deliver(heard: bool) returns (events: seq<Event>)
      requires Ok()
      modifies this
      ensures Ok() && Value() == HandedOver(old(Value()))
      ensures if heard then Drained(old(minSeq), multiset(old(parked)), events) else events == []
    {
      var start, batch := HandOver();
      if !heard {
        return [];
      }
      events := Drain(start, multiset(batch));
    }
  }

  /** The next batch continues where this one ended exactly when the latest arrival was also the last one played. */
  lemma NextBatchContinues(start: nat, batch: multiset<Payload>, events: seq<Event>, latest: Payload)
    requires start < SEQS && InWindow(start, batch) && Timeline(start, batch, events)
    requires latest in batch && |events| <= SPAN
    ensures events != [] && events[|events| - 1].Decode?
    ensures (latest.seq16 + 1) % SEQS == (start + |events|) % SEQS <==> latest == events[|events| - 1].p
  {
    hide InWindow, Decoded;
    var n := Pos(start, latest.seq16);
    assert events[n] == Decode(latest);
    Tick(start, n);
    if (latest.seq16 + 1) % SEQS == (start + |events|) % SEQS {
      PosOf(start, n + 1);
      PosOf(start, |events|);
    }
  }
}
