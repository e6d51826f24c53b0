/** Which packets of a speaker are played, told by what arrived and when the courier came, and by nothing else. */
module VoiceRuns {
  import opened VoiceOrder
  import opened VoiceCourier

  /** The index of the first packet, or the number of steps. */
  function FirstArrival(steps: seq<LotStep>): (f: nat)
    ensures f <= |steps| && forall i :: 0 <= i < f ==> steps[i].Flush?
    ensures f < |steps| ==> steps[f].Arrive?
  {
    if steps == [] || steps[0].Arrive? then 0
    else
      var f := FirstArrival(steps[1..]);
      assert forall i :: 0 < i <= f ==> steps[i] == steps[1..][i - 1];
      f + 1
  }

  /** The index of the last flush, or -1. */
  function LastFlush(steps: seq<LotStep>): (l: int)
    ensures -1 <= l < |steps| && (l >= 0 ==> steps[l].Flush?)
    ensures forall i :: l < i < |steps| ==> steps[i].Arrive?
  {
    if steps == [] then -1
    else if steps[|steps| - 1].Flush? then |steps| - 1 else LastFlush(steps[..|steps| - 1])
  }

  /** The latest packet, of the first n steps, that was let in; the first of all always is. */
  function LatestIn(steps: seq<LotStep>, n: nat): (a: nat)
    requires FirstArrival(steps) < n <= |steps|
    ensures a < n && steps[a].Arrive?
    decreases n, 0
  {
    if n == FirstArrival(steps) + 1 || (steps[n - 1].Arrive? && LetIn(steps, n - 1)) then n - 1
    else LatestIn(steps, n - 1)
  }

  /**
   The number and the timestamp packets are measured by: those of the first packet until the first flush behind it, and from
   then on one more than those of the latest packet let in before the last flush, going round at 2^16 and 2^32.
   */
  function RangeOf(steps: seq<LotStep>): (nat, nat)
    requires FirstArrival(steps) < |steps|
    decreases |steps|, 1
  {
    var first, flush := FirstArrival(steps), LastFlush(steps);
    if flush > first then
      var latest := steps[LatestIn(steps, flush)].p;
      ((latest.seq16 + 1) % 65536, (latest.timestamp + 1) % 4294967296)
    else (steps[first].p.seq16, steps[first].p.timestamp)
  }

  /** A packet is let in unless both its number and its timestamp are below the range. */
  predicate LetIn(steps: seq<LotStep>, i: nat)
    requires i < |steps| && steps[i].Arrive?
    decreases i, 2
  {
    var before, p := steps[..i], steps[i].p;
    FirstArrival(before) == i || p.seq16 >= RangeOf(before).0 || p.timestamp >= RangeOf(before).1
  }

  /** The packets let in since the last flush. */
  function Waiting(steps: seq<LotStep>): seq<Payload>
  {
    if steps == [] || steps[|steps| - 1].Flush? then []
    else
      Waiting(steps[..|steps| - 1])
      + if LetIn(steps, |steps| - 1) then [steps[|steps| - 1].p] else []
  }

  // ----- Beginnings of runs -----

  lemma {:induction false} FirstOf(steps: seq<LotStep>, n: nat)
    requires n <= |steps|
    ensures FirstArrival(steps[..n]) == if FirstArrival(steps) < n then FirstArrival(steps) else n
  {
    var f, g := FirstArrival(steps), FirstArrival(steps[..n]);
    if g < n { assert steps[g].Arrive?; }
    if f < n { assert steps[..n][f].Arrive?; }
  }

  lemma LetInOf(steps: seq<LotStep>, n: nat, i: nat)
    requires i < n <= |steps| && steps[i].Arrive?
    ensures LetIn(steps[..n], i) == LetIn(steps, i)
  {
    assert steps[..n][..i] == steps[..i];
    hide RangeOf, FirstArrival;
  }

  lemma {:induction false} LatestOf(steps: seq<LotStep>, n: nat, m: nat)
    requires FirstArrival(steps) < m <= n <= |steps|
    ensures FirstArrival(steps[..n]) == FirstArrival(steps) && LatestIn(steps[..n], m) == LatestIn(steps, m)
    decreases m
  {
    FirstOf(steps, n);
    if m > FirstArrival(steps) + 1 {
      if steps[m - 1].Arrive? { LetInOf(steps, n, m - 1); }
      LatestOf(steps, n, m - 1);
    }
    hide LetIn, FirstArrival;
  }

  lemma {:induction false} AfterSnoc(lot: Lot, steps: seq<LotStep>, step: LotStep)
    ensures LotAfter(lot, steps + [step]) == Stepped(LotAfter(lot, steps), step)
    decreases |steps|
  {
    hide Stepped;
    var all := steps + [step];
    if steps == [] {
      assert all == [step] && all[1..] == [];
    } else {
      assert all[1..] == steps[1..] + [step];
      AfterSnoc(Stepped(lot, steps[0]), steps[1..], step);
    }
  }

  /** What the fields of the lot are, after any run. */
  ghost predicate Told(steps: seq<LotStep>)
  {
    var lot := LotAfter(NEW_LOT, steps);
    && (lot.hasDecoder <==> FirstArrival(steps) < |steps|)
    && (lot.hasDecoder ==>
          var latest := steps[LatestIn(steps, |steps|)].p;
          && (lot.minSeq, lot.minTimestamp) == RangeOf(steps)
          && lot.maxSeq == latest.seq16 && lot.maxTimestamp == latest.timestamp)
    && lot.parked == Waiting(steps)
  }

  lemma {:induction false} LotIsTold(steps: seq<LotStep>)
    ensures Told(steps)
    decreases |steps|
  {
    if steps != [] {
      var n := |steps| - 1;
      var init := steps[..n];
      assert steps == init + [steps[n]];
      LotIsTold(init);
      AfterSnoc(NEW_LOT, init, steps[n]);
      FirstOf(steps, n);
      hide LotAfter, FirstArrival;
      if steps[n].Flush? {
        FlushTold(steps, n);
      } else if FirstArrival(steps) == n {
        FirstTold(steps, n);
      } else {
        LaterTold(steps, n);
      }
    }
  }

  lemma FlushTold(steps: seq<LotStep>, n: nat)
    requires |steps| == n + 1 && steps[n].Flush? && Told(steps[..n])
    requires LotAfter(NEW_LOT, steps) == Stepped(LotAfter(NEW_LOT, steps[..n]), steps[n])
    requires FirstArrival(steps[..n]) == if FirstArrival(steps) < n then FirstArrival(steps) else n
    ensures Told(steps)
  {
    var f := FirstArrival(steps);
    if f < n {
      LatestOf(steps, n, n);
      NotLetIn(steps, n);
    }
    hide LotAfter, FirstArrival, LetIn, LatestIn;
  }

  lemma NotLetIn(steps: seq<LotStep>, n: nat)
    requires |steps| == n + 1 && FirstArrival(steps) < n && steps[n].Flush?
    ensures LatestIn(steps, n + 1) == LatestIn(steps, n)
  {
  }

  lemma FirstTold(steps: seq<LotStep>, n: nat)
    requires |steps| == n + 1 && steps[n].Arrive? && Told(steps[..n]) && FirstArrival(steps) == n
    requires LotAfter(NEW_LOT, steps) == Stepped(LotAfter(NEW_LOT, steps[..n]), steps[n])
    requires FirstArrival(steps[..n]) == n
    ensures Told(steps)
  {
    hide LotAfter, FirstArrival;
    assert LastFlush(steps) < n;
    assert LatestIn(steps, n + 1) == n;
  }

  lemma LaterTold(steps: seq<LotStep>, n: nat)
    requires |steps| == n + 1 && steps[n].Arrive? && Told(steps[..n]) && FirstArrival(steps) < n
    requires LotAfter(NEW_LOT, steps) == Stepped(LotAfter(NEW_LOT, steps[..n]), steps[n])
    requires FirstArrival(steps[..n]) == FirstArrival(steps)
    ensures Told(steps)
  {
    var lot := LotAfter(NEW_LOT, steps[..n]);
    SameRange(steps, n);
    LatestOf(steps, n, n);
    LetInIs(steps, n, lot);
    LatestNow(steps, n);
    WaitingNow(steps, n);
    hide LotAfter, FirstArrival, LetIn, RangeOf, LatestIn, Waiting;
  }

  lemma LetInIs(steps: seq<LotStep>, n: nat, lot: Lot)
    requires n < |steps| && steps[n].Arrive? && FirstArrival(steps[..n]) < n
    requires lot.hasDecoder && (lot.minSeq, lot.minTimestamp) == RangeOf(steps[..n])
    ensures LetIn(steps, n) <==> !TooLate(lot, steps[n].p)
  {
    hide RangeOf, FirstArrival;
  }

  lemma LatestNow(steps: seq<LotStep>, n: nat)
    requires |steps| == n + 1 && steps[n].Arrive? && FirstArrival(steps) < n
    ensures LatestIn(steps, n + 1) == if LetIn(steps, n) then n else LatestIn(steps, n)
  {
    hide LetIn, FirstArrival;
  }

  lemma WaitingNow(steps: seq<LotStep>, n: nat)
    requires |steps| == n + 1 && steps[n].Arrive?
    ensures Waiting(steps) == Waiting(steps[..n]) + if LetIn(steps, n) then [steps[n].p] else []
  {
    hide LetIn;
  }

  lemma SameRange(steps: seq<LotStep>, n: nat)
    requires |steps| == n + 1 && steps[n].Arrive? && FirstArrival(steps) < n
    requires FirstArrival(steps[..n]) == FirstArrival(steps)
    ensures RangeOf(steps) == RangeOf(steps[..n])
  {
    var flush := LastFlush(steps);
    assert flush == LastFlush(steps[..n]);
    if flush > FirstArrival(steps) { LatestOf(steps, n, flush); }
    hide LatestIn, FirstArrival, LastFlush;
  }

  // ----- What is played -----

  lemma {:induction false} PlaysAt(lot: Lot, steps: seq<LotStep>, played: seq<seq<Event>>, j: nat)
    requires Plays(lot, steps, played) && j < |steps|
    ensures |played| == |steps|
    ensures var l := LotAfter(lot, steps[..j]);
            if steps[j] == Flush(true) then Drained(l.minSeq, multiset(l.parked), played[j]) else played[j] == []
    decreases |steps|
  {
    hide Drained, Stepped;
    if j > 0 {
      PlaysAt(Stepped(lot, steps[0]), steps[1..], played[1..], j - 1);
      assert steps[..j][1..] == steps[1..][..j - 1] && steps[..j][0] == steps[0];
    }
  }

  /**
   Whatever the run: a delivery with handlers decodes exactly the packets let in since the flush before it, each once; with
   all of them in a window, on their timeline, from the number after the latest let in before that flush.
   */
  lemma WhatIsPlayed(steps: seq<LotStep>, played: seq<seq<Event>>, j: nat)
    requires Plays(NEW_LOT, steps, played) && j < |steps|
    ensures |played| == |steps|
    ensures steps[j] == Flush(true) ==> Decoded(played[j]) == multiset(Waiting(steps[..j]))
    ensures steps[j] == Flush(true) && FirstArrival(steps) < j ==>
              Drained(RangeOf(steps[..j]).0, multiset(Waiting(steps[..j])), played[j])
    ensures steps[j] != Flush(true) ==> played[j] == []
  {
    PlaysAt(NEW_LOT, steps, played, j);
    LotIsTold(steps[..j]);
    FirstOf(steps, j);
    hide LotAfter, Plays, Waiting, RangeOf, LatestIn, FirstArrival, InWindow, Timeline;
  }

  // ----- The fate of one packet -----

  /** The packets let in of the first n steps. */
  function AllIn(steps: seq<LotStep>): multiset<Payload>
  {
    if steps == [] then multiset{}
    else
      var n := |steps| - 1;
      AllIn(steps[..n]) + if steps[n].Arrive? && LetIn(steps, n) then multiset{steps[n].p} else multiset{}
  }

  lemma {:induction false} AcceptedSnoc(lot: Lot, steps: seq<LotStep>, step: LotStep)
    ensures Accepted(lot, steps + [step])
         == Accepted(lot, steps)
            + if step.Arrive? && !TooLate(LotAfter(lot, steps), step.p) then multiset{step.p} else multiset{}
    decreases |steps|
  {
    hide Stepped, TooLate;
    var all := steps + [step];
    if steps == [] {
      assert all[1..] == [];
      assert Accepted(Stepped(lot, step), []) == multiset{};
    } else {
      assert all[1..] == steps[1..] + [step] && all[0] == steps[0];
      AcceptedSnoc(Stepped(lot, steps[0]), steps[1..], step);
    }
  }

  lemma {:induction false} AcceptedIsAllIn(steps: seq<LotStep>)
    ensures Accepted(NEW_LOT, steps) == AllIn(steps)
    decreases |steps|
  {
    if steps != [] {
      var n := |steps| - 1;
      var init := steps[..n];
      assert steps == init + [steps[n]];
      AcceptedIsAllIn(init);
      AcceptedSnoc(NEW_LOT, init, steps[n]);
      LotIsTold(init);
      FirstOf(steps, n);
      if steps[n].Arrive? {
        var lot := LotAfter(NEW_LOT, init);
        assert LetIn(steps, n) <==> !TooLate(lot, steps[n].p);
      }
      hide Accepted, LetIn, TooLate, LotAfter;
    }
  }

  lemma {:induction false} InAllIn(steps: seq<LotStep>, p: Payload)
    ensures p in AllIn(steps) <==> exists i :: IsIn(steps, i, p)
    decreases |steps|
  {
    if steps != [] {
      var n := |steps| - 1;
      InAllIn(steps[..n], p);
      InBeginning(steps, n, p);
      hide LetIn;
    }
  }

  lemma InBeginning(steps: seq<LotStep>, n: nat, p: Payload)
    requires |steps| == n + 1
    ensures (exists i :: IsIn(steps, i, p)) <==> (exists i :: IsIn(steps[..n], i, p)) || IsIn(steps, n, p)
  {
    forall i
      ensures IsIn(steps, i, p) <==> IsIn(steps[..n], i, p) || (i == n && IsIn(steps, n, p))
    {
      if 0 <= i < n && steps[i].Arrive? { LetInOf(steps, n, i); }
    }
    hide IsIn;
  }

  /** The packet of this arrival is let in. */
  predicate IsIn(steps: seq<LotStep>, i: int, p: Payload)
  {
    0 <= i < |steps| && steps[i] == Arrive(p) && LetIn(steps, i)
  }

  /** A packet is decoded, dropped unheard or still parked exactly if at some arrival of it one of its two numbers was not low. */
  lemma PacketsFate(steps: seq<LotStep>, played: seq<seq<Event>>, p: Payload)
    requires Plays(NEW_LOT, steps, played)
    ensures p in AllDecoded(played) + Unheard(NEW_LOT, steps) + multiset(Waiting(steps)) <==>
            exists i :: IsIn(steps, i, p)
    ensures AllDecoded(played) + Unheard(NEW_LOT, steps) + multiset(Waiting(steps)) == AllIn(steps)
  {
    NothingIsLost(NEW_LOT, steps, played);
    AcceptedIsAllIn(steps);
    LotIsTold(steps);
    InAllIn(steps, p);
    var none: multiset<Payload> := multiset{};
    assert multiset(NEW_LOT.parked) == none && none + AllIn(steps) == AllIn(steps);
    hide LetIn, Plays, AllDecoded, Unheard, Accepted, LotAfter, Waiting, AllIn, RangeOf, LatestIn;
  }
}
