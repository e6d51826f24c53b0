/** The request queue keeps its invariant in every interleaving, and what that means for its users. */
module RequestQueueProofs {
  import opened Bytes
  import opened RequestQueue

  // ----- Sequences -----

  lemma OfSnoc(s: seq<Req>, r: Req, ep: Endpoint)
    ensures Of(s + [r], ep) == Of(s, ep) + if r.endpoint == ep then [r] else []
  {
    assert (s + [r])[..|s|] == s;
  }

  lemma OfNone(ep: Endpoint)
    ensures Of([], ep) == []
  {
  }

  lemma OfOne(r: Req, ep: Endpoint)
    ensures Of([r], ep) == if r.endpoint == ep then [r] else []
  {
    OfSnoc([], r, ep);
    assert [] + [r] == [r];
  }

  lemma {:induction false} OfConcat(a: seq<Req>, b: seq<Req>, ep: Endpoint)
    ensures Of(a + b, ep) == Of(a, ep) + Of(b, ep)
    decreases |b|
  {
    if b == [] {
      assert a + b == a;
    } else {
      var c, r := b[..|b| - 1], b[|b| - 1];
      assert a + b == (a + c) + [r] && b == c + [r];
      OfConcat(a, c, ep);
      OfSnoc(a + c, r, ep);
      OfSnoc(c, r, ep);
    }
  }

  lemma RanSnoc(ran: seq<Run>, run: Run)
    ensures RanReqs(ran + [run]) == RanReqs(ran) + [run.req]
  {
    assert (ran + [run])[..|ran|] == ran;
  }

  lemma LastSnoc(ran: seq<Run>, run: Run, ep: Endpoint)
    ensures LastRun(ran + [run], ep) == if run.req.endpoint == ep then [run] else LastRun(ran, ep)
  {
    assert (ran + [run])[..|ran|] == ran;
  }

  lemma {:induction false} PendingSnoc(entries: seq<Entry>, r: Req)
    ensures Pending(entries + [Entry(r, false)]) == Pending(entries) + [r]
    ensures Uncompleted(entries + [Entry(r, false)]) == Uncompleted(entries) + [Entry(r, false)]
    decreases |entries|
  {
    var all := entries + [Entry(r, false)];
    if entries == [] {
      assert all == [Entry(r, false)] && all[1..] == [];
    } else {
      assert all[1..] == entries[1..] + [Entry(r, false)];
      PendingSnoc(entries[1..], r);
    }
  }

  lemma {:induction false} PendingIn(entries: seq<Entry>, r: Req)
    requires r in Pending(entries)
    ensures exists i :: 0 <= i < |entries| && entries[i].req == r
    decreases |entries|
  {
    if entries[0].completed || entries[0].req != r {
      PendingIn(entries[1..], r);
      var i :| 0 <= i < |entries[1..]| && entries[1..][i].req == r;
      assert entries[i + 1].req == r;
    }
  }

  lemma {:induction false} MarkNone(entries: seq<Entry>, id: nat)
    requires forall i :: 0 <= i < |entries| ==> entries[i].req.id != id
    ensures Pending(Mark(entries, id)) == Pending(entries)
    decreases |entries|
  {
    if entries != [] {
      assert Mark(entries, id)[1..] == Mark(entries[1..], id);
      MarkNone(entries[1..], id);
    }
  }

  lemma UncompletedStep(entries: seq<Entry>)
    requires entries != []
    ensures var rest := entries[1..];
            if entries[0].completed then
              Uncompleted(entries) == Uncompleted(rest) && Pending(entries) == Pending(rest)
            else
              Uncompleted(entries) == [entries[0]] + Uncompleted(rest)
              && Pending(entries) == [entries[0].req] + Pending(rest)
    ensures Reqs(entries) == [entries[0].req] + Reqs(entries[1..])
  {
    assert [] + Pending(entries[1..]) == Pending(entries[1..]);
    assert [] + Uncompleted(entries[1..]) == Uncompleted(entries[1..]);
  }

  lemma {:induction false} UncompletedFacts(entries: seq<Entry>)
    ensures |Uncompleted(entries)| <= |entries|
    ensures Pending(Uncompleted(entries)) == Pending(entries)
    ensures Uncompleted(Uncompleted(entries)) == Uncompleted(entries)
    ensures Uncompleted(entries) == entries ==> Pending(entries) == Reqs(entries)
    ensures forall e :: e in Uncompleted(entries) ==> e in entries
    decreases |entries|
  {
    if entries != [] {
      var rest, u := entries[1..], Uncompleted(entries);
      UncompletedFacts(rest);
      UncompletedStep(entries);
      hide Uncompleted, Pending, Reqs;
      if !entries[0].completed {
        assert u[1..] == Uncompleted(rest);
        UncompletedStep(u);
      }
    }
  }

  lemma DistinctCons(r: Req, rest: seq<Req>)
    ensures DistinctIds([r] + rest) <==> DistinctIds(rest) && forall i :: 0 <= i < |rest| ==> rest[i].id != r.id
  {
    var all := [r] + rest;
    if DistinctIds(all) {
      forall i | 0 <= i < |rest| ensures rest[i].id != r.id {
        assert all[0].id != all[i + 1].id;
      }
      forall i, j | 0 <= i < j < |rest| ensures rest[i].id != rest[j].id {
        assert all[i + 1].id != all[j + 1].id;
      }
    }
  }

  lemma {:induction false} UncompletedDistinct(entries: seq<Entry>)
    requires DistinctIds(Reqs(entries))
    ensures DistinctIds(Reqs(Uncompleted(entries)))
    decreases |entries|
  {
    hide Uncompleted, DistinctIds;
    if entries != [] {
      var rest, u := entries[1..], Uncompleted(entries[1..]);
      UncompletedStep(entries);
      DistinctCons(entries[0].req, Reqs(rest));
      UncompletedDistinct(rest);
      if !entries[0].completed {
        assert Uncompleted(entries)[1..] == u;
        UncompletedStep(Uncompleted(entries));
        KeptAreOthers(rest, entries[0].req.id);
        DistinctCons(entries[0].req, Reqs(u));
      }
    } else {
      NoneCompleted(entries);
    }
  }

  lemma KeptAreOthers(rest: seq<Entry>, id: nat)
    requires forall i :: 0 <= i < |Reqs(rest)| ==> Reqs(rest)[i].id != id
    ensures forall i :: 0 <= i < |Reqs(Uncompleted(rest))| ==> Reqs(Uncompleted(rest))[i].id != id
  {
    hide Uncompleted;
    var u := Uncompleted(rest);
    UncompletedFacts(rest);
    forall j | 0 <= j < |Reqs(u)| ensures Reqs(u)[j].id != id {
      assert u[j] in rest;
      var i :| 0 <= i < |rest| && rest[i] == u[j];
      assert Reqs(rest)[i].id != id;
    }
  }

  lemma MarkRest(entries: seq<Entry>, id: nat)
    requires entries != []
    ensures Mark(entries, id)[1..] == Mark(entries[1..], id)
  {
    var all, rest := Mark(entries, id), Mark(entries[1..], id);
    assert |all| == |entries| && |rest| == |entries| - 1;
    forall i | 0 <= i < |rest|
      ensures all[1..][i] == rest[i]
    {
      assert entries[1..][i] == entries[i + 1];
    }
  }

  lemma {:induction false} MarkFirst(entries: seq<Entry>, id: nat)
    requires DistinctIds(Reqs(entries))
    requires Pending(entries) != [] && Pending(entries)[0].id == id
    ensures Pending(Mark(entries, id)) == Pending(entries)[1..]
    decreases |entries|
  {
    var rest := entries[1..];
    assert entries != [];
    MarkRest(entries, id);
    UncompletedStep(entries);
    UncompletedStep(Mark(entries, id));
    DistinctCons(entries[0].req, Reqs(rest));
    if entries[0].completed {
      MarkFirst(rest, id);
    } else {
      forall i | 0 <= i < |rest| ensures rest[i].req.id != id {
        assert Reqs(rest)[i].id != entries[0].req.id;
      }
      MarkNone(rest, id);
    }
  }

  // ----- Deletion -----

  lemma {:induction false} InsertSorted(list: seq<Expiry>, e: Expiry)
    requires Sorted(list)
    ensures Sorted(Insert(list, e))
    ensures forall x :: x in Insert(list, e) ==> x == e || x in list
    decreases |list|
  {
    if list != [] && list[0].at <= e.at {
      var rest := Insert(list[1..], e);
      InsertSorted(list[1..], e);
      forall j | 0 <= j < |rest| ensures list[0].at <= rest[j].at {
        assert rest[j] in rest;
      }
    }
  }

  lemma {:induction false} InsertAdds(list: seq<Expiry>, e: Expiry)
    ensures multiset(ExpiryReqs(Insert(list, e))) == multiset(ExpiryReqs(list)) + multiset{e.req}
    decreases |list|
  {
    if list == [] || e.at < list[0].at {
      assert ([e] + list)[1..] == list;
    } else {
      var rest := Insert(list[1..], e);
      InsertAdds(list[1..], e);
      assert ([list[0]] + rest)[1..] == rest;
    }
  }

  lemma {:induction false} ExpirySplit(list: seq<Expiry>, n: nat)
    requires n <= |list|
    ensures ExpiryReqs(list) == ExpiryReqs(list[..n]) + ExpiryReqs(list[n..])
    decreases |list|
  {
    if n > 0 {
      assert list[..n][1..] == list[1..][..n - 1] && list[n..] == list[1..][n - 1..];
      ExpirySplit(list[1..], n - 1);
    } else {
      assert list[..0] == [] && list[0..] == list;
    }
  }

  /** A purge deletes exactly the requests whose minute is over. */
  lemma {:induction false} PurgeIsExact(list: seq<Expiry>, now: nat)
    requires Sorted(list)
    ensures forall i :: 0 <= i < |list| ==> (i < Expired(list, now) <==> list[i].at <= now)
    decreases |list|
  {
    if list != [] && list[0].at <= now {
      PurgeIsExact(list[1..], now);
      forall i | 0 <= i < |list| ensures i < Expired(list, now) <==> list[i].at <= now {
        if i > 0 { assert list[i] == list[1..][i - 1]; }
      }
    }
  }

  // ----- Threads -----

  lemma ListOkMore(ep: Endpoint, entries: seq<Entry>, posted: seq<Req>, r: Req)
    requires ListOk(ep, entries, posted)
    ensures ListOk(ep, entries, posted + [r])
  {
  }

  lemma ThreadOkMore(pool: nat, t: nat, th: InThread, posted: seq<Req>, r: Req)
    requires pool > 0 && ThreadOk(pool, t, th, posted)
    ensures ThreadOk(pool, t, th, posted + [r])
  {
    hide ListOk, WorkOk;
    forall ep | ep in th.requestsIn ensures ListOk(ep, th.requestsIn[ep], posted + [r]) {
      ListOkMore(ep, th.requestsIn[ep], posted, r);
    }
  }

  lemma ListOkPost(ep: Endpoint, entries: seq<Entry>, posted: seq<Req>, r: Req)
    requires ListOk(ep, entries, posted) && r.endpoint == ep
    requires forall p :: p in posted ==> p.id != r.id
    ensures ListOk(ep, entries + [Entry(r, false)], posted + [r])
  {
    var all := entries + [Entry(r, false)];
    assert Reqs(all) == Reqs(entries) + [r];
    forall i, j | 0 <= i < j < |all| ensures Reqs(all)[i].id != Reqs(all)[j].id {
      if j == |entries| { assert Reqs(all)[i] == entries[i].req; }
    }
  }

  lemma PostThread(pool: nat, t: nat, th: InThread, posted: seq<Req>, r: Req)
    requires pool > 0 && ThreadOk(pool, t, th, posted) && ThreadOf(pool, r.endpoint) == t
    requires forall p :: p in posted ==> p.id != r.id
    ensures ThreadOk(pool, t, PostTo(th, r), posted + [r])
  {
    hide ListOk, ThreadOf;
    var th', ep := PostTo(th, r), r.endpoint;
    var entries := Get(th.requestsIn, ep);
    PendingSnoc(entries, r);
    assert ListOk(ep, entries, posted) by {
      if ep !in th.requestsIn { EmptyListOk(ep, posted); }
    }
    ListOkPost(ep, entries, posted, r);
    forall e | e in th'.requestsIn ensures ThreadOf(pool, e) == t && ListOk(e, th'.requestsIn[e], posted + [r]) {
      if e != ep { ListOkMore(e, th.requestsIn[e], posted, r); }
    }
    forall i | 0 <= i < |Todo(th'.pc)| ensures WorkOk(th'.requestsIn, Todo(th'.pc)[i]) {
      assert WorkOk(th.requestsIn, Todo(th.pc)[i]);
    }
  }

  lemma EmptyListOk(ep: Endpoint, posted: seq<Req>)
    ensures ListOk(ep, [], posted)
  {
  }

  lemma ListOkMark(ep: Endpoint, entries: seq<Entry>, posted: seq<Req>, id: nat)
    requires ListOk(ep, entries, posted)
    ensures ListOk(ep, Mark(entries, id), posted)
  {
    assert Reqs(Mark(entries, id)) == Reqs(entries);
  }

  /** The head of a batch is the first pending request of its endpoint. */
  lemma HeadPending(pool: nat, t: nat, th: InThread, posted: seq<Req>)
    requires pool > 0 && ThreadOk(pool, t, th, posted)
    requires th.pc.Batch? && th.pc.todo != [] && th.pc.todo[0].reqs != []
    ensures var w := th.pc.todo[0]; var r := w.reqs[0];
            && r.endpoint == w.endpoint && ThreadOf(pool, w.endpoint) == t
            && w.endpoint in th.requestsIn && Pending(th.requestsIn[w.endpoint]) != []
            && Pending(th.requestsIn[w.endpoint])[0] == r
            && Pending(Mark(th.requestsIn[w.endpoint], r.id)) == Pending(th.requestsIn[w.endpoint])[1..]
  {
    var w := th.pc.todo[0];
    assert WorkOk(th.requestsIn, Todo(th.pc)[0]);
    var entries := th.requestsIn[w.endpoint];
    assert ListOk(w.endpoint, entries, posted);
    PendingIn(entries, w.reqs[0]);
    MarkFirst(entries, w.reqs[0].id);
  }

  lemma RunThread(pool: nat, t: nat, th: InThread, posted: seq<Req>, run: Run)
    requires pool > 0 && ThreadOk(pool, t, th, posted)
    requires th.pc.Batch? && th.pc.todo != [] && th.pc.todo[0].reqs != [] && run.req == th.pc.todo[0].reqs[0]
    ensures ThreadOk(pool, t, RunIn(th, run), posted)
  {
    HeadPending(pool, t, th, posted);
    hide ListOk, ThreadOf;
    var w, th', r := th.pc.todo[0], RunIn(th, run), run.req;
    var ep := w.endpoint;
    ListOkMark(ep, th.requestsIn[ep], posted, r.id);
    forall i | 0 <= i < |Todo(th'.pc)| ensures WorkOk(th'.requestsIn, Todo(th'.pc)[i]) {
      assert WorkOk(th.requestsIn, Todo(th.pc)[i]);
      if i > 0 { assert Todo(th.pc)[0].endpoint != Todo(th.pc)[i].endpoint; }
    }
    forall i, j | 0 <= i < j < |Todo(th'.pc)| ensures Todo(th'.pc)[i].endpoint != Todo(th'.pc)[j].endpoint {
      assert Todo(th.pc)[i].endpoint != Todo(th.pc)[j].endpoint;
    }
  }

  lemma SkipThread(pool: nat, t: nat, th: InThread, posted: seq<Req>)
    requires pool > 0 && ThreadOk(pool, t, th, posted) && th.pc.Batch? && th.pc.todo != []
    ensures ThreadOk(pool, t, th.(pc := Batch(th.pc.todo[1..])), posted)
  {
    hide ListOk, ThreadOf, WorkOk;
    var th' := th.(pc := Batch(th.pc.todo[1..]));
    forall i | 0 <= i < |Todo(th'.pc)| ensures WorkOk(th'.requestsIn, Todo(th'.pc)[i]) {
      assert WorkOk(th.requestsIn, Todo(th.pc)[i + 1]);
    }
    forall i, j | 0 <= i < j < |Todo(th'.pc)| ensures Todo(th'.pc)[i].endpoint != Todo(th'.pc)[j].endpoint {
      assert Todo(th.pc)[i + 1].endpoint != Todo(th.pc)[j + 1].endpoint;
    }
  }

  lemma SnapshotThread(pool: nat, t: nat, th: InThread, posted: seq<Req>, order: seq<Endpoint>)
    requires pool > 0 && ThreadOk(pool, t, th, posted) && th.pc.Resting? && Lists(order, th.requestsIn.Keys)
    ensures ThreadOk(pool, t, th.(pc := Batch(Works(th.requestsIn, order))), posted)
  {
    hide ListOk, ThreadOf;
    var works := Works(th.requestsIn, order);
    forall i | 0 <= i < |works| ensures WorkOk(th.requestsIn, works[i]) {
      assert order[i] in order;
      UncompletedFacts(th.requestsIn[order[i]]);
    }
  }

  lemma CleanThread(pool: nat, t: nat, th: InThread, posted: seq<Req>)
    requires pool > 0 && ThreadOk(pool, t, th, posted)
    ensures ThreadOk(pool, t, th.(requestsIn := Clean(th.requestsIn), pc := Resting), posted)
  {
    hide ThreadOf;
    var clean := Clean(th.requestsIn);
    forall ep | ep in clean ensures ListOk(ep, clean[ep], posted) && Uncompleted(clean[ep]) == clean[ep] {
      var entries := th.requestsIn[ep];
      UncompletedFacts(entries);
      UncompletedDistinct(entries);
      forall i | 0 <= i < |clean[ep]| ensures clean[ep][i].req.endpoint == ep && clean[ep][i].req in posted {
        assert clean[ep][i] in entries;
      }
    }
  }

  // ----- Every step keeps the invariant -----

  lemma InitHolds(pool: nat)
    requires pool > 0
    ensures Inv(Init(pool))
  {
  }

  /** Only thread t changed, and possibly one request was posted. */
  lemma ThreadsKept(q: Queue, q': Queue, t: nat)
    requires Inv(q) && |q'.threads| == |q.threads| && t < |q.threads|
    requires q'.posted == q.posted || exists r :: q'.posted == q.posted + [r]
    requires forall u :: 0 <= u < |q.threads| && u != t ==> q'.threads[u] == q.threads[u]
    requires ThreadOk(|q.threads|, t, q'.threads[t], q'.posted)
    ensures forall u :: 0 <= u < |q.threads| ==> ThreadOk(|q.threads|, u, q'.threads[u], q'.posted)
  {
    hide ThreadOk, Pipeline, RateOk, DeletesOk;
    forall u | 0 <= u < |q.threads| ensures ThreadOk(|q.threads|, u, q'.threads[u], q'.posted) {
      if u != t && q'.posted != q.posted {
        var r :| q'.posted == q.posted + [r];
        ThreadOkMore(|q.threads|, u, q.threads[u], q.posted, r);
      }
    }
  }

  lemma PostKeeps(q: Queue, r: Req)
    requires Inv(q) && Enabled(q, Post(r))
    ensures Inv(Next(q, Post(r)))
  {
    hide ThreadOk, RateOk, ThreadOf, Pipeline;
    var q', t := Next(q, Post(r)), ThreadOf(|q.threads|, r.endpoint);
    PostThread(|q.threads|, t, q.threads[t], q.posted, r);
    ThreadsKept(q, q', t);
    forall ep ensures Pipeline(q', ep) {
      PostPipeline(q, r, ep);
    }
  }

  lemma PostPipeline(q: Queue, r: Req, ep: Endpoint)
    requires |q.threads| > 0 && Enabled(q, Post(r)) && Pipeline(q, ep)
    ensures Pipeline(Next(q, Post(r)), ep)
  {
    hide ThreadOf, LastRun, Of, RanReqs;
    var th := q.threads[ThreadOf(|q.threads|, r.endpoint)];
    OfSnoc(q.posted, r, ep);
    PendingSnoc(Get(th.requestsIn, r.endpoint), r);
  }

  lemma RunKeeps(q: Queue, t: nat, start: nat, finish: nat, reply: Reply)
    requires Inv(q) && Enabled(q, RunHead(t, start, finish, reply)) && !Blocked(q.threads[t], start)
    ensures Inv(Next(q, RunHead(t, start, finish, reply)))
  {
    hide ThreadOk, ThreadOf, Pipeline;
    var q', th := Next(q, RunHead(t, start, finish, reply)), q.threads[t];
    var run := Run(th.pc.todo[0].reqs[0], start, finish, reply);
    HeadPending(|q.threads|, t, th, q.posted);
    RunThread(|q.threads|, t, th, q.posted, run);
    ThreadsKept(q, q', t);
    RunRate(q, t, run);
    forall ep ensures Pipeline(q', ep) {
      RunPipeline(q, t, run, ep);
    }
  }

  lemma RunRate(q: Queue, t: nat, run: Run)
    requires Inv(q) && t < |q.threads| && q.threads[t].pc.Batch? && q.threads[t].pc.todo != []
    requires !Blocked(q.threads[t], run.start)
    requires run.req.endpoint == q.threads[t].pc.todo[0].endpoint && ThreadOf(|q.threads|, run.req.endpoint) == t
    ensures RateOk(q.ran + [run])
  {
    hide ThreadOk, ThreadOf;
    assert Pipeline(q, run.req.endpoint);
    assert (q.ran + [run])[..|q.ran|] == q.ran;
  }

  lemma RunPipeline(q: Queue, t: nat, run: Run, ep: Endpoint)
    requires |q.threads| > 0 && t < |q.threads| && q.threads[t].pc.Batch? && Pipeline(q, ep)
    requires q.threads[t].pc.todo != [] && q.threads[t].pc.todo[0].reqs != []
    requires run.req == q.threads[t].pc.todo[0].reqs[0] && ThreadOf(|q.threads|, run.req.endpoint) == t
    requires var entries := Get(q.threads[t].requestsIn, run.req.endpoint);
             && Pending(entries) != [] && Pending(entries)[0] == run.req
             && Pending(Mark(entries, run.req.id)) == Pending(entries)[1..]
    ensures Pipeline(q.(threads := q.threads[t := RunIn(q.threads[t], run)], ran := q.ran + [run]), ep)
  {
    hide ThreadOf, LastRun, RanReqs, Of, Pending;
    RanSnoc(q.ran, run);
    LastSnoc(q.ran, run, ep);
    OfSnoc(RanReqs(q.ran), run.req, ep);
    OfOne(run.req, ep);
    OfNone(ep);
    var entries := Get(q.threads[t].requestsIn, run.req.endpoint);
    assert Pending(entries) == [run.req] + Pending(entries)[1..];
  }

  lemma SkipKeeps(q: Queue, t: nat)
    requires Inv(q) && t < |q.threads| && q.threads[t].pc.Batch? && q.threads[t].pc.todo != []
    ensures Inv(q.(threads := q.threads[t := q.threads[t].(pc := Batch(q.threads[t].pc.todo[1..]))]))
  {
    hide ThreadOk, ThreadOf, RateOk, LastRun;
    var th := q.threads[t];
    var q' := q.(threads := q.threads[t := th.(pc := Batch(th.pc.todo[1..]))]);
    SkipThread(|q.threads|, t, th, q.posted);
    ThreadsKept(q, q', t);
    forall ep ensures Pipeline(q', ep) {
      assert Pipeline(q, ep);
    }
  }

  lemma SnapshotKeeps(q: Queue, t: nat, order: seq<Endpoint>)
    requires Inv(q) && Enabled(q, Snapshot(t, order))
    ensures Inv(Next(q, Snapshot(t, order)))
  {
    hide ThreadOk, ThreadOf, RateOk, LastRun, Lists;
    var q' := Next(q, Snapshot(t, order));
    SnapshotThread(|q.threads|, t, q.threads[t], q.posted, order);
    ThreadsKept(q, q', t);
    forall ep ensures Pipeline(q', ep) {
      assert Pipeline(q, ep);
    }
  }

  lemma PushThread(pool: nat, t: nat, th: InThread, posted: seq<Req>)
    requires pool > 0 && ThreadOk(pool, t, th, posted) && th.pc.Pushing?
    ensures ThreadOk(pool, t, th.(pc := Batch(th.pc.todo)), posted)
    ensures ThreadOf(pool, th.pc.req.endpoint) == t
  {
    hide ListOk, WorkOk, ThreadOf;
    var th' := th.(pc := Batch(th.pc.todo));
    assert Todo(th'.pc) == Todo(th.pc);
  }

  lemma PushKeeps(q: Queue, t: nat)
    requires Inv(q) && Enabled(q, Push(t))
    ensures Inv(Next(q, Push(t)))
  {
    hide ThreadOk, ThreadOf, RateOk, Pipeline;
    var q' := Next(q, Push(t));
    PushThread(|q.threads|, t, q.threads[t], q.posted);
    ThreadsKept(q, q', t);
    forall ep ensures Pipeline(q', ep) {
      PushPipeline(q, t, ep);
    }
  }

  lemma PushPipeline(q: Queue, t: nat, ep: Endpoint)
    requires |q.threads| > 0 && Enabled(q, Push(t)) && Pipeline(q, ep)
    requires ThreadOf(|q.threads|, q.threads[t].pc.req.endpoint) == t
    ensures Pipeline(Next(q, Push(t)), ep)
  {
    hide ThreadOf, LastRun, RanReqs, Of, Pending;
    var r := q.threads[t].pc.req;
    OfSnoc(q.responsesOut, r, ep);
    OfOne(r, ep);
    OfNone(ep);
  }

  lemma CleanupKeeps(q: Queue, t: nat)
    requires Inv(q) && Enabled(q, Cleanup(t))
    ensures Inv(Next(q, Cleanup(t)))
  {
    hide ThreadOk, ThreadOf, RateOk, Pipeline;
    var q', th := Next(q, Cleanup(t)), q.threads[t];
    CleanThread(|q.threads|, t, th, q.posted);
    ThreadsKept(q, q', t);
    forall ep ensures Pipeline(q', ep) {
      CleanPipeline(q, t, ep);
    }
  }

  lemma CleanPipeline(q: Queue, t: nat, ep: Endpoint)
    requires |q.threads| > 0 && Enabled(q, Cleanup(t)) && Pipeline(q, ep)
    ensures Pipeline(Next(q, Cleanup(t)), ep)
  {
    hide ThreadOf, LastRun, RanReqs, Of;
    UncompletedFacts(Get(q.threads[t].requestsIn, ep));
  }

  lemma PopKeeps(q: Queue, now: nat)
    requires Inv(q) && Enabled(q, Pop(now))
    ensures Inv(Next(q, Pop(now)))
  {
    hide ThreadOk, ThreadOf, RateOk, LastRun, RanReqs, Of;
    var q' := Next(q, Pop(now));
    forall ep ensures Pipeline(q', ep) {
      assert Pipeline(q, ep);
      OfNone(ep);
      if q.responsesOut != [] {
        var r, rest := q.responsesOut[0], q.responsesOut[1..];
        assert q.responsesOut == [r] + rest;
        OfConcat([r], rest, ep);
      }
    }
  }

  lemma CallbackKeeps(q: Queue)
    requires Inv(q) && Enabled(q, Callback)
    ensures Inv(Next(q, Callback))
  {
    hide ThreadOk, ThreadOf, RateOk, LastRun, RanReqs, Of, DeletesOk;
    var q', r := Next(q, Callback), q.outPc.req;
    forall ep ensures Pipeline(q', ep) {
      assert Pipeline(q, ep);
      OfSnoc(q.callbacks, r, ep);
      OfOne(r, ep);
      OfNone(ep);
    }
    CallbackDeletes(q);
  }

  lemma CallbackDeletes(q: Queue)
    requires DeletesOk(q) && q.outPc.Calling?
    ensures DeletesOk(Next(q, Callback))
  {
    hide ExpiryReqs, Insert;
    var r := q.outPc.req;
    InsertSorted(q.toDelete, Expiry(q.outPc.now + 60, r));
    InsertAdds(q.toDelete, Expiry(q.outPc.now + 60, r));
    assert multiset(q.callbacks + [r]) == multiset(q.callbacks) + multiset{r};
  }

  lemma PurgeKeeps(q: Queue)
    requires Inv(q) && Enabled(q, Purge)
    ensures Inv(Next(q, Purge))
  {
    hide ThreadOk, ThreadOf, RateOk, LastRun, RanReqs, Of, DeletesOk;
    var q' := Next(q, Purge);
    forall ep ensures Pipeline(q', ep) {
      assert Pipeline(q, ep);
    }
    PurgeDeletes(q);
  }

  lemma PurgeDeletes(q: Queue)
    requires DeletesOk(q) && q.outPc.Purging?
    ensures DeletesOk(Next(q, Purge))
  {
    hide ExpiryReqs;
    var n := Expired(q.toDelete, q.outPc.now);
    ExpirySplit(q.toDelete, n);
    var gone, kept := ExpiryReqs(q.toDelete[..n]), ExpiryReqs(q.toDelete[n..]);
    assert multiset(gone + kept) == multiset(gone) + multiset(kept);
    assert multiset(q.deleted + gone) == multiset(q.deleted) + multiset(gone);
  }

  lemma StepKeeps(q: Queue, a: Step)
    requires Inv(q) && Enabled(q, a)
    ensures Inv(Next(q, a))
  {
    hide Inv;
    match a
    case Post(r) => PostKeeps(q, r);
    case Snapshot(t, order) => SnapshotKeeps(q, t, order);
    case RunHead(t, start, finish, reply) =>
      if Blocked(q.threads[t], start) { SkipKeeps(q, t); } else { RunKeeps(q, t, start, finish, reply); }
    case NextEndpoint(t) => SkipKeeps(q, t);
    case Push(t) => PushKeeps(q, t);
    case Cleanup(t) => CleanupKeeps(q, t);
    case Pop(now) => PopKeeps(q, now);
    case Callback => CallbackKeeps(q);
    case Purge => PurgeKeeps(q);
  }

  lemma {:induction false} PathKeeps(q: Queue, steps: seq<Step>)
    requires Inv(q) && Path(q, steps)
    ensures Inv(After(q, steps))
    decreases |steps|
  {
    hide Inv;
    if steps != [] {
      StepKeeps(q, steps[0]);
      PathKeeps(Next(q, steps[0]), steps[1..]);
    }
  }

  // ----- What the invariant means -----

  lemma {:induction false} OfCount(s: seq<Req>, r: Req)
    ensures multiset(Of(s, r.endpoint))[r] == multiset(s)[r]
    decreases |s|
  {
    if s != [] {
      var init, last := s[..|s| - 1], s[|s| - 1];
      assert s == init + [last];
      OfCount(init, r);
      OfSnoc(init, last, r.endpoint);
    }
  }

  lemma {:induction false} DistinctCount(s: seq<Req>, r: Req)
    requires DistinctIds(s)
    ensures multiset(s)[r] == if r in s then 1 else 0
    decreases |s|
  {
    if s != [] {
      assert s == [s[0]] + s[1..];
      DistinctCons(s[0], s[1..]);
      DistinctCount(s[1..], r);
    }
  }

  function CountOf(s: seq<Req>, r: Req): nat
  {
    multiset(s)[r]
  }

  /** Where a request can be. */
  datatype Places = Places(waiting: nat, held: nat, answered: nat, called: nat, toDelete: nat, deleted: nat) {
    function Sum(): nat
    {
      waiting + held + answered + called + toDelete + deleted
    }
  }

  function PlacesOf(q: Queue, r: Req): Places
    requires |q.threads| > 0
  {
    var th := q.threads[ThreadOf(|q.threads|, r.endpoint)];
    Places(CountOf(Pending(Get(th.requestsIn, r.endpoint)), r), CountOf(Held(th.pc), r), CountOf(q.responsesOut, r),
           CountOf(Called(q.outPc), r), CountOf(ExpiryReqs(q.toDelete), r), CountOf(q.deleted, r))
  }

  /** No other thread, and no other endpoint's list, waits on the request or holds it. */
  predicate NowhereElse(q: Queue, r: Req)
    requires |q.threads| > 0
  {
    var home := ThreadOf(|q.threads|, r.endpoint);
    forall t :: 0 <= t < |q.threads| ==>
      && (forall ep :: ep in q.threads[t].requestsIn && (t != home || ep != r.endpoint) ==>
            forall e :: e in q.threads[t].requestsIn[ep] ==> e.req != r)
      && (t != home ==> r !in Held(q.threads[t].pc))
  }

  lemma StaysHome(q: Queue, r: Req)
    requires Inv(q)
    ensures NowhereElse(q, r)
  {
    hide Pipeline, RateOk, DeletesOk;
    forall t, ep, e | 0 <= t < |q.threads| && ep in q.threads[t].requestsIn && e in q.threads[t].requestsIn[ep]
      ensures e.req.endpoint == ep && ThreadOf(|q.threads|, ep) == t
    {
      assert ThreadOk(|q.threads|, t, q.threads[t], q.posted);
    }
    forall t | 0 <= t < |q.threads| && r in Held(q.threads[t].pc)
      ensures ThreadOf(|q.threads|, r.endpoint) == t
    {
      assert ThreadOk(|q.threads|, t, q.threads[t], q.posted);
    }
    hide ThreadOk, ThreadOf;
  }

  /** Each posted request is in exactly one place, has run at most once and been called back at most once. */
  lemma OnePlace(q: Queue, r: Req)
    requires Inv(q)
    ensures PlacesOf(q, r).Sum() == if r in q.posted then 1 else 0
    ensures NowhereElse(q, r)
    ensures CountOf(RanReqs(q.ran), r) == PlacesOf(q, r).Sum() - PlacesOf(q, r).waiting
    ensures CountOf(q.callbacks, r) == PlacesOf(q, r).toDelete + PlacesOf(q, r).deleted
  {
    StaysHome(q, r);
    hide ThreadOk, ThreadOf, RateOk, LastRun, Of, Pending, NowhereElse;
    var ep, th := r.endpoint, q.threads[ThreadOf(|q.threads|, r.endpoint)];
    assert Pipeline(q, ep);
    OfCount(q.posted, r);
    OfCount(RanReqs(q.ran), r);
    OfCount(q.callbacks, r);
    OfCount(Called(q.outPc), r);
    OfCount(q.responsesOut, r);
    OfCount(Held(th.pc), r);
    DistinctCount(q.posted, r);
    JoinCount(Of(RanReqs(q.ran), ep), Pending(Get(th.requestsIn, ep)), r);
    JoinCount(Of(q.callbacks, ep) + Of(Called(q.outPc), ep) + Of(q.responsesOut, ep), Of(Held(th.pc), ep), r);
    JoinCount(Of(q.callbacks, ep) + Of(Called(q.outPc), ep), Of(q.responsesOut, ep), r);
    JoinCount(Of(q.callbacks, ep), Of(Called(q.outPc), ep), r);
  }

  lemma JoinCount(a: seq<Req>, b: seq<Req>, r: Req)
    ensures CountOf(a + b, r) == CountOf(a, r) + CountOf(b, r)
  {
  }

  /**
   In every interleaving: a request is in exactly one place, runs at most once and is called back at most once; an
   endpoint's requests are run and called back in the order they were posted; and runs respect the rate limits.
   */
  lemma EveryInterleaving(pool: nat, steps: seq<Step>, r: Req, ep: Endpoint)
    requires pool > 0 && Path(Init(pool), steps)
    ensures var q := After(Init(pool), steps);
            && |q.threads| > 0
            && PlacesOf(q, r).Sum() == (if r in q.posted then 1 else 0) && NowhereElse(q, r)
            && CountOf(RanReqs(q.ran), r) <= 1 && CountOf(q.callbacks, r) <= 1
            && Of(q.callbacks, ep) <= Of(RanReqs(q.ran), ep) <= Of(q.posted, ep)
            && Spaced(q.ran)
  {
    InitHolds(pool);
    PathKeeps(Init(pool), steps);
    var q := After(Init(pool), steps);
    OnePlace(q, r);
    AllSpaced(q.ran);
    hide ThreadOk, ThreadOf, RateOk, LastRun, Of, Pending, PlacesOf, NowhereElse;
    assert Pipeline(q, ep);
  }

  /** One run follows another of the same endpoint. */
  predicate Follows(ran: seq<Run>, i: int, j: int)
  {
    && 0 <= i < j < |ran| && ran[i].req.endpoint == ran[j].req.endpoint
    && forall k :: i < k < j ==> ran[k].req.endpoint != ran[j].req.endpoint
  }

  /** After an answer without allowance an endpoint rests: for what retry_after says, or else for what reset_after says. */
  ghost predicate Spaced(ran: seq<Run>)
  {
    forall i, j :: Follows(ran, i, j) && ran[i].reply.remaining == 0 ==> Rested(ran[i], ran[j].start)
  }

  predicate Rested(run: Run, now: nat)
  {
    if run.reply.retryAfter != 0 then now > (run.finish + run.reply.retryAfter) % 18446744073709551616
    else now > (run.finish + run.reply.resetAfter) % 18446744073709551616
  }

  lemma AllSpaced(ran: seq<Run>)
    requires RateOk(ran)
    ensures Spaced(ran)
  {
    forall i, j | Follows(ran, i, j) && ran[i].reply.remaining == 0
      ensures Rested(ran[i], ran[j].start)
    {
      RunsAreSpaced(ran, i, j);
    }
  }

  /** An endpoint may run: it has no answer yet, its last one left an allowance, or it has rested. */
  ghost predicate MayRun(ran: seq<Run>, ep: Endpoint, now: nat)
  {
    forall i :: IsLast(ran, ep, i) ==> ran[i].reply.remaining > 0 || Rested(ran[i], now)
  }

  predicate IsLast(ran: seq<Run>, ep: Endpoint, i: int)
  {
    0 <= i < |ran| && ran[i].req.endpoint == ep && forall k :: i < k < |ran| ==> ran[k].req.endpoint != ep
  }

  lemma {:induction false} LastRunIs(ran: seq<Run>, ep: Endpoint)
    ensures LastRun(ran, ep) == [] ==> forall i :: 0 <= i < |ran| ==> ran[i].req.endpoint != ep
    ensures LastRun(ran, ep) != [] ==> exists i :: IsLast(ran, ep, i) && LastRun(ran, ep) == [ran[i]]
    decreases |ran|
  {
    if ran != [] {
      var init, n := ran[..|ran| - 1], |ran| - 1;
      if ran[n].req.endpoint == ep {
        assert IsLast(ran, ep, n);
      } else {
        LastRunIs(init, ep);
        if LastRun(init, ep) != [] {
          var i :| IsLast(init, ep, i) && LastRun(init, ep) == [init[i]];
          assert IsLast(ran, ep, i);
        }
      }
    }
  }

  /**
   In every interleaving: a thread that comes to an endpoint runs it exactly if it may run, once, and what it runs is the
   first request posted that has not run. If it may not, nothing runs and the thread goes on to the next endpoint.
   */
  lemma RunsExactlyWhenItMay(pool: nat, steps: seq<Step>, t: nat, start: nat, finish: nat, reply: Reply)
    requires pool > 0 && Path(Init(pool), steps) && Enabled(After(Init(pool), steps), RunHead(t, start, finish, reply))
    ensures var q := After(Init(pool), steps);
            var ep, next := q.threads[t].pc.todo[0].endpoint, Next(q, RunHead(t, start, finish, reply));
            var done := |Of(RanReqs(q.ran), ep)|;
            if MayRun(q.ran, ep, start) then
              && done < |Of(q.posted, ep)|
              && next.ran == q.ran + [Run(Of(q.posted, ep)[done], start, finish, reply)]
            else next.ran == q.ran && next.threads[t].pc == Batch(q.threads[t].pc.todo[1..])
  {
    InitHolds(pool);
    PathKeeps(Init(pool), steps);
    var q := After(Init(pool), steps);
    var th := q.threads[t];
    var ep := th.pc.todo[0].endpoint;
    hide Path, After;
    HeadIsFirst(q, t);
    BucketIsLast(q, ep, start);
    hide Inv, Of, RanReqs, MayRun, Blocks;
  }

  lemma HeadIsFirst(q: Queue, t: nat)
    requires Inv(q) && t < |q.threads| && q.threads[t].pc.Batch? && q.threads[t].pc.todo != []
    requires q.threads[t].pc.todo[0].reqs != []
    ensures var work := q.threads[t].pc.todo[0];
            var done := |Of(RanReqs(q.ran), work.endpoint)|;
            && ThreadOf(|q.threads|, work.endpoint) == t
            && done < |Of(q.posted, work.endpoint)| && work.reqs[0] == Of(q.posted, work.endpoint)[done]
  {
    var th := q.threads[t];
    var work := th.pc.todo[0];
    assert ThreadOk(|q.threads|, t, th, q.posted);
    assert Todo(th.pc)[0] == work && WorkOk(th.requestsIn, work);
    assert Pipeline(q, work.endpoint);
    hide Of, RanReqs, LastRun, RateOk, DeletesOk, ListOk;
  }

  lemma BucketIsLast(q: Queue, ep: Endpoint, now: nat)
    requires Inv(q)
    ensures var th := q.threads[ThreadOf(|q.threads|, ep)];
            (ep in th.buckets && Blocks(th.buckets[ep], now)) <==> !MayRun(q.ran, ep, now)
  {
    assert Pipeline(q, ep);
    LastRunIs(q.ran, ep);
    hide ThreadOk, Of, RanReqs, LastRun, RateOk, DeletesOk, ThreadOf;
    if LastRun(q.ran, ep) != [] {
      var i :| IsLast(q.ran, ep, i) && LastRun(q.ran, ep) == [q.ran[i]];
      LastDecides(q.ran, ep, i, now);
    }
  }

  lemma LastDecides(ran: seq<Run>, ep: Endpoint, i: int, now: nat)
    requires IsLast(ran, ep, i)
    ensures Blocks(BucketOf(ran[i]), now) <==> !MayRun(ran, ep, now)
  {
    assert forall k :: IsLast(ran, ep, k) ==> k == i;
  }

  /** A request called back is kept for another minute: deleted at the first purge from then on. */
  lemma KeptAMinute(q: Queue)
    requires q.outPc.Calling?
    ensures var next := Next(q, Callback);
            && multiset(next.toDelete) == multiset(q.toDelete) + multiset{Expiry(q.outPc.now + 60, q.outPc.req)}
            && next.callbacks == q.callbacks + [q.outPc.req]
  {
    InsertIs(q.toDelete, Expiry(q.outPc.now + 60, q.outPc.req));
  }

  lemma {:induction false} InsertIs(list: seq<Expiry>, e: Expiry)
    ensures multiset(Insert(list, e)) == multiset(list) + multiset{e}
    decreases |list|
  {
    if list == [] || e.at < list[0].at {
      assert multiset([e] + list) == multiset{e} + multiset(list);
    } else {
      InsertIs(list[1..], e);
      assert list == [list[0]] + list[1..];
    }
  }

  /** The next run of an endpoint after an answer without allowance starts after the wait the answer asked for. */
  lemma {:induction false} RunsAreSpaced(ran: seq<Run>, i: nat, j: nat)
    requires RateOk(ran) && i < j < |ran| && ran[i].req.endpoint == ran[j].req.endpoint
    requires forall k :: i < k < j ==> ran[k].req.endpoint != ran[j].req.endpoint
    requires ran[i].reply.remaining == 0
    ensures var run, next := ran[i], ran[j].start;
            && (run.reply.retryAfter != 0 ==> next > (run.finish + run.reply.retryAfter) % 18446744073709551616)
            && (run.reply.retryAfter == 0 ==> next > (run.finish + run.reply.resetAfter) % 18446744073709551616)
            && (run.reply.retryAfter != 0 && run.finish + run.reply.retryAfter < 18446744073709551616 ==>
                  next > run.finish + run.reply.retryAfter)
            && (run.reply.retryAfter == 0 && run.finish + run.reply.resetAfter < 18446744073709551616 ==>
                  next > run.finish + run.reply.resetAfter)
    decreases |ran|
  {
    var init := ran[..|ran| - 1];
    if j == |ran| - 1 {
      LastRunAt(init, i, ran[j].req.endpoint);
    } else {
      RunsAreSpaced(init, i, j);
    }
  }

  lemma {:induction false} LastRunAt(ran: seq<Run>, i: nat, ep: Endpoint)
    requires i < |ran| && ran[i].req.endpoint == ep
    requires forall k :: i < k < |ran| ==> ran[k].req.endpoint != ep
    ensures LastRun(ran, ep) == [ran[i]]
    decreases |ran|
  {
    if i < |ran| - 1 {
      LastRunAt(ran[..|ran| - 1], i, ep);
    }
  }

  /** Where a thread is in its batch decides what it can do next: run or skip a head, leave an endpoint that is done with, end. */
  lemma OneWayOn(q: Queue, t: nat, start: nat, finish: nat, reply: Reply)
    requires t < |q.threads| && q.threads[t].pc.Batch? && start <= finish
    ensures var todo := q.threads[t].pc.todo;
            && (Enabled(q, Cleanup(t)) <==> todo == [])
            && (Enabled(q, NextEndpoint(t)) <==> todo != [] && todo[0].reqs == [])
            && (Enabled(q, RunHead(t, start, finish, reply)) <==> todo != [] && todo[0].reqs != [])
  {
  }

  /** A pass goes through every endpoint the thread has, each once, with all of its requests in order. */
  lemma PassTakesAll(q: Queue, t: nat, order: seq<Endpoint>)
    requires Enabled(q, Snapshot(t, order))
    ensures var th, todo := q.threads[t], Next(q, Snapshot(t, order)).threads[t].pc.todo;
            && (forall ep :: ep in th.requestsIn <==> exists i :: 0 <= i < |todo| && todo[i].endpoint == ep)
            && (forall i, j :: 0 <= i < j < |todo| ==> todo[i].endpoint != todo[j].endpoint)
            && forall i :: 0 <= i < |todo| ==>
                 && |todo[i].reqs| == |th.requestsIn[todo[i].endpoint]|
                 && forall k :: 0 <= k < |todo[i].reqs| ==> todo[i].reqs[k] == th.requestsIn[todo[i].endpoint][k].req
  {
    var th, todo := q.threads[t], Next(q, Snapshot(t, order)).threads[t].pc.todo;
    assert todo == Works(th.requestsIn, order);
    forall ep
      ensures ep in th.requestsIn <==> exists i :: 0 <= i < |todo| && todo[i].endpoint == ep
    {
      if ep in order {
        var i :| 0 <= i < |order| && order[i] == ep;
        assert todo[i].endpoint == ep;
      }
    }
  }

  // ----- Hashes -----

  function Power31(k: nat): nat
  {
    if k == 0 then 1 else 31 * Power31(k - 1)
  }

  /** The characters by their places in base 31, those from 128 on negative. */
  function InBase31(s: seq<byte>): int
  {
    if s == [] then 0
    else (if s[0] < 128 then s[0] as int else s[0] as int - 256) * Power31(|s| - 1) + InBase31(s[1..])
  }

  /** The hash is the text's number in base 31 behind a leading 17, in 32 bits. */
  lemma {:induction false} HashIs(s: seq<byte>)
    ensures Hash(s) == (17 * Power31(|s|) + InBase31(s)) % 4294967296
    decreases |s|
  {
    if s != [] {
      var init, last := s[..|s| - 1], s[|s| - 1];
      HashIs(init);
      InBaseSnoc(init, last);
      assert s == init + [last];
      Times31(17 * Power31(|init|) + InBase31(init), Signed(last));
      assert 17 * Power31(|s|) == 31 * (17 * Power31(|init|));
    }
  }

  lemma {:induction false} InBaseSnoc(s: seq<byte>, b: byte)
    ensures InBase31(s + [b]) == 31 * InBase31(s) + if b < 128 then b as int else b as int - 256
    decreases |s|
  {
    if s == [] {
      assert s + [b] == [b] && [b][1..] == [];
    } else {
      var first := if s[0] < 128 then s[0] as int else s[0] as int - 256;
      assert (s + [b])[1..] == s[1..] + [b];
      InBaseSnoc(s[1..], b);
      Shifted(first, Power31(|s| - 1));
      assert Power31(|s|) == 31 * Power31(|s| - 1);
    }
  }

  lemma Shifted(a: int, p: nat)
    ensures a * (31 * p) == 31 * (a * p)
  {
  }

  lemma Times31(n: int, b: int)
    ensures (b + 31 * (n % 4294967296)) % 4294967296 == (31 * n + b) % 4294967296
  {
    var q, r := n / 4294967296, n % 4294967296;
    assert 31 * n + b == b + 31 * r + (31 * q) * 4294967296;
  }

  /** The text ends at its first zero byte. */
  lemma {:induction false} CStringIs(s: seq<byte>)
    ensures var c := CString(s); c <= s && 0 !in c && (|c| < |s| ==> s[|c|] == 0)
  {
    if s != [] && s[0] != 0 {
      CStringIs(s[1..]);
    }
  }

  /** A request called back goes behind those to be deleted no later. */
  lemma {:induction false} InsertAt(list: seq<Expiry>, e: Expiry)
    requires Sorted(list)
    ensures var k := Expired(list, e.at); Insert(list, e) == list[..k] + [e] + list[k..]
    decreases |list|
  {
    if list != [] && list[0].at <= e.at {
      InsertAt(list[1..], e);
      var k := Expired(list[1..], e.at);
      assert list[..k + 1] == [list[0]] + list[1..][..k] && list[k + 1..] == list[1..][k..];
    }
  }

  // ----- The loops -----

  /** The hash as the program computes it. */
  method HashLoop(s: seq<byte>) returns (hashval: nat)
    ensures hashval == Hash(CString(s))
  {
    hashval := 17;
    var i := 0;
    ghost var c := CString(s);
    assert s[0..] == s;
    while i < |s| && s[i] != 0
      invariant i <= |s| && i <= |c| && c[i..] == CString(s[i..]) && c[..i] == s[..i]
      invariant hashval == Hash(c[..i])
    {
      assert s[i..][1..] == s[i + 1..];
      assert c[i] == s[i] && c[i + 1..] == c[i..][1..] == CString(s[i + 1..]);
      assert c[..i + 1][..i] == c[..i];
      hashval := (Signed(s[i]) + 31 * hashval) % TWO_32;
      i := i + 1;
    }
    assert c[..i] == c;
  }

  function Size(lists: seq<seq<Entry>>): nat
  {
    if lists == [] then 0 else |lists[0]| + Size(lists[1..])
  }

  lemma {:induction false} SizeShrinks(lists: seq<seq<Entry>>, k: nat, shorter: seq<Entry>)
    requires k < |lists| && |shorter| < |lists[k]|
    ensures Size(lists[k := shorter]) < Size(lists)
    decreases |lists|
  {
    if k == 0 {
      assert lists[0 := shorter][1..] == lists[1..];
    } else {
      assert lists[k := shorter][1..] == lists[1..][k - 1 := shorter];
      SizeShrinks(lists[1..], k - 1, shorter);
    }
  }

  lemma WithoutOne<T>(s: seq<T>, i: nat)
    requires 0 < i < |s|
    ensures var less := s[..i] + s[i + 1..]; less != [] && less[0] == s[0] && less[1..] == s[1..][..i - 1] + s[1..][i..]
  {
  }

  lemma {:induction false} EraseOne(entries: seq<Entry>, i: nat)
    requires i < |entries| && entries[i].completed
    ensures Uncompleted(entries[..i] + entries[i + 1..]) == Uncompleted(entries)
    decreases |entries|
  {
    hide Uncompleted, Pending, Reqs;
    UncompletedStep(entries);
    if i == 0 {
      assert entries[..0] + entries[1..] == entries[1..];
    } else {
      WithoutOne(entries, i);
      UncompletedStep(entries[..i] + entries[i + 1..]);
      EraseOne(entries[1..], i - 1);
    }
  }

  /** Scans the queues for a completed request. */
  method FindCompleted(lists: seq<seq<Entry>>) returns (found: bool, k: nat, i: nat)
    ensures found ==> k < |lists| && i < |lists[k]| && lists[k][i].completed
    ensures !found ==> forall l :: 0 <= l < |lists| ==> forall j :: 0 <= j < |lists[l]| ==> !lists[l][j].completed
  {
    found, k, i := false, 0, 0;
    while k < |lists|
      invariant k <= |lists|
      invariant forall l :: 0 <= l < k ==> forall j :: 0 <= j < |lists[l]| ==> !lists[l][j].completed
    {
      i := 0;
      while i < |lists[k]|
        invariant i <= |lists[k]| && forall j :: 0 <= j < i ==> !lists[k][j].completed
      {
        if lists[k][i].completed {
          found := true;
          return;
        }
        i := i + 1;
      }
      k := k + 1;
    }
  }

  lemma {:induction false} NoneCompleted(entries: seq<Entry>)
    requires forall j :: 0 <= j < |entries| ==> !entries[j].completed
    ensures Uncompleted(entries) == entries
    decreases |entries|
  {
    if entries != [] {
      NoneCompleted(entries[1..]);
    }
  }

  /** Erases one completed request at a time, starting over each time, over the queues in key order. */
  method EraseCompleted(requestsIn: seq<seq<Entry>>) returns (r: seq<seq<Entry>>)
    ensures |r| == |requestsIn|
    ensures forall l :: 0 <= l < |r| ==> r[l] == Uncompleted(requestsIn[l])
  {
    r := requestsIn;
    var again := true;
    while again
      invariant |r| == |requestsIn|
      invariant forall l :: 0 <= l < |r| ==> Uncompleted(r[l]) == Uncompleted(requestsIn[l])
      invariant !again ==> forall l :: 0 <= l < |r| ==> r[l] == Uncompleted(r[l])
      decreases again, Size(r)
    {
      var k, i;
      again, k, i := FindCompleted(r);
      if again {
        EraseOne(r[k], i);
        SizeShrinks(r, k, r[k][..i] + r[k][i + 1..]);
        r := r[k := r[k][..i] + r[k][i + 1..]];
      } else {
        forall l | 0 <= l < |r| ensures r[l] == Uncompleted(r[l]) {
          NoneCompleted(r[l]);
        }
      }
    }
  }

  /** Deletes from the front while the front has expired. */
  method PurgeLoop(list: seq<Expiry>, now: nat) returns (kept: seq<Expiry>, deleted: seq<Req>)
    ensures kept == list[Expired(list, now)..]
    ensures deleted == ExpiryReqs(list[..Expired(list, now)])
  {
    kept, deleted := list, [];
    ghost var n := 0;
    while |kept| > 0 && now >= kept[0].at
      invariant n <= |list| && kept == list[n..] && deleted == ExpiryReqs(list[..n])
      invariant Expired(list, now) == n + Expired(kept, now)
    {
      ExpirySplit(list[..n + 1], n);
      assert list[..n + 1][..n] == list[..n] && list[..n + 1][n..] == [list[n]];
      assert ExpiryReqs([list[n]]) == [list[n].req];
      deleted := deleted + [kept[0].req];
      kept := kept[1..];
      n := n + 1;
    }
  }
}
