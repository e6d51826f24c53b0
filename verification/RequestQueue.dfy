/**
 The rate-limited request queue: any number of posters, a fixed pool of in-threads, and one out-thread, as a machine whose
 steps are the pieces of code between two lock operations. Any thread may take the next step.
 */
module RequestQueue {
  import opened Bytes

  type Endpoint = seq<byte>

  datatype Req = Req(id: nat, endpoint: Endpoint)

  /** What a server's answer says about the rate limit. */
  datatype Reply = Reply(remaining: nat, resetAfter: nat, retryAfter: nat)

  datatype Bucket = Bucket(remaining: nat, resetAfter: nat, retryAfter: nat, timestamp: nat)

  /** A queued request and its completion flag. */
  datatype Entry = Entry(req: Req, completed: bool)

  /** A copied queue of one endpoint, as far as it has not been worked through. */
  datatype Work = Work(endpoint: Endpoint, reqs: seq<Req>)

  datatype InPc = Resting | Batch(todo: seq<Work>) | Pushing(req: Req, todo: seq<Work>)

  datatype InThread = InThread(requestsIn: map<Endpoint, seq<Entry>>, buckets: map<Endpoint, Bucket>, pc: InPc)

  datatype OutPc = Idle | Calling(req: Req, now: nat) | Purging(now: nat)

  /** One run of a request: when it was decided on, when its answer was there, and what the answer said. */
  datatype Run = Run(req: Req, start: nat, finish: nat, reply: Reply)

  datatype Expiry = Expiry(at: nat, req: Req)

  datatype Queue = Queue(
    threads: seq<InThread>,
    responsesOut: seq<Req>,
    outPc: OutPc,
    toDelete: seq<Expiry>,
    deleted: seq<Req>,
    posted: seq<Req>,          // history: every request posted
    ran: seq<Run>,             // history: every run
    callbacks: seq<Req>        // history: every callback
  )

  // ----- Which thread -----

  /** The hash of an endpoint, in 32-bit arithmetic over signed characters. */
  function Hash(s: Endpoint): (h: nat)
    ensures h < TWO_32
  {
    if s == [] then 17 else (Signed(s[|s| - 1]) + 31 * Hash(s[..|s| - 1])) % TWO_32
  }

  function Signed(b: byte): int
  {
    if b < 128 then b else b - 256
  }

  /** The text a C string function sees: up to the first NUL. */
  function CString(s: seq<byte>): seq<byte>
  {
    if s == [] || s[0] == 0 then [] else [s[0]] + CString(s[1..])
  }

  function ThreadOf(pool: nat, endpoint: Endpoint): (t: nat)
    requires pool > 0
    ensures t < pool
  {
    Hash(CString(endpoint)) % pool
  }

  // ----- Sequences of requests -----

  /** The requests for one endpoint, in order. */
  function Of(reqs: seq<Req>, ep: Endpoint): seq<Req>
  {
    if reqs == [] then []
    else Of(reqs[..|reqs| - 1], ep) + if reqs[|reqs| - 1].endpoint == ep then [reqs[|reqs| - 1]] else []
  }

  function RanReqs(ran: seq<Run>): seq<Req>
  {
    if ran == [] then [] else RanReqs(ran[..|ran| - 1]) + [ran[|ran| - 1].req]
  }

  function Reqs(entries: seq<Entry>): (r: seq<Req>)
    ensures |r| == |entries|
    ensures forall i :: 0 <= i < |r| ==> r[i] == entries[i].req
  {
    seq(|entries|, i requires 0 <= i < |entries| => entries[i].req)
  }

  /** The requests not run yet. */
  function Pending(entries: seq<Entry>): seq<Req>
  {
    if entries == [] then []
    else (if entries[0].completed then [] else [entries[0].req]) + Pending(entries[1..])
  }

  /** Sets the completion flag of a request. */
  function Mark(entries: seq<Entry>, id: nat): (r: seq<Entry>)
    ensures |r| == |entries|
    ensures forall i :: 0 <= i < |r| ==> r[i].req == entries[i].req
  {
    seq(|entries|, i requires 0 <= i < |entries| =>
      Entry(entries[i].req, entries[i].completed || entries[i].req.id == id))
  }

  function Uncompleted(entries: seq<Entry>): seq<Entry>
  {
    if entries == [] then []
    else (if entries[0].completed then [] else [entries[0]]) + Uncompleted(entries[1..])
  }

  function Get(requestsIn: map<Endpoint, seq<Entry>>, ep: Endpoint): seq<Entry>
  {
    if ep in requestsIn then requestsIn[ep] else []
  }

  // ----- Rate limits -----

  function WaitOf(b: Bucket): nat
  {
    if b.retryAfter != 0 then b.retryAfter else b.resetAfter
  }

  /** Whether a bucket tells its endpoint to wait; the sum is taken in 64 bits. */
  predicate Blocks(b: Bucket, now: nat)
  {
    b.remaining < 1 && now <= (b.timestamp + WaitOf(b)) % TWO_64
  }

  function BucketOf(run: Run): Bucket
  {
    Bucket(run.reply.remaining, run.reply.resetAfter, run.reply.retryAfter, run.finish)
  }

  // ----- The delete list, in order of expiry -----

  function Insert(list: seq<Expiry>, e: Expiry): seq<Expiry>
  {
    if list == [] || e.at < list[0].at then [e] + list else [list[0]] + Insert(list[1..], e)
  }

  /** How many entries at the front have expired. */
  function Expired(list: seq<Expiry>, now: nat): (n: nat)
    ensures n <= |list|
  {
    if list == [] || list[0].at > now then 0 else 1 + Expired(list[1..], now)
  }

  function ExpiryReqs(list: seq<Expiry>): (r: seq<Req>)
    ensures |r| == |list|
  {
    if list == [] then [] else [list[0].req] + ExpiryReqs(list[1..])
  }

  // ----- Steps -----

  datatype Step =
    | Post(req: Req)
    | Snapshot(t: nat, order: seq<Endpoint>)
    | RunHead(t: nat, start: nat, finish: nat, reply: Reply)
    | NextEndpoint(t: nat)
    | Push(t: nat)
    | Cleanup(t: nat)
    | Pop(now: nat)
    | Callback
    | Purge

  function Init(pool: nat): Queue
  {
    Queue(seq(pool, i => InThread(map[], map[], Resting)), [], Idle, [], [], [], [], [])
  }

  predicate Lists(order: seq<Endpoint>, keys: set<Endpoint>)
  {
    && (forall i, j :: 0 <= i < j < |order| ==> order[i] != order[j])
    && (forall ep :: ep in order ==> ep in keys)
    && (forall ep :: ep in keys ==> ep in order)
  }

  predicate Enabled(q: Queue, a: Step)
  {
    match a
    case Post(r) => |q.threads| > 0 && forall p :: p in q.posted ==> p.id != r.id
    case Snapshot(t, order) =>
      t < |q.threads| && q.threads[t].pc.Resting? && Lists(order, q.threads[t].requestsIn.Keys)
    case RunHead(t, start, finish, _) =>
      && t < |q.threads| && q.threads[t].pc.Batch? && start <= finish
      && q.threads[t].pc.todo != [] && q.threads[t].pc.todo[0].reqs != []
    case NextEndpoint(t) =>
      t < |q.threads| && q.threads[t].pc.Batch? && q.threads[t].pc.todo != [] && q.threads[t].pc.todo[0].reqs == []
    case Push(t) => t < |q.threads| && q.threads[t].pc.Pushing?
    case Cleanup(t) => t < |q.threads| && q.threads[t].pc == Batch([])
    case Pop(_) => q.outPc.Idle?
    case Callback => q.outPc.Calling?
    case Purge => q.outPc.Purging?
  }

  function Works(requestsIn: map<Endpoint, seq<Entry>>, order: seq<Endpoint>): (r: seq<Work>)
    ensures |r| == |order|
    ensures forall i :: 0 <= i < |r| ==> r[i] == Work(order[i], Reqs(Get(requestsIn, order[i])))
  {
    seq(|order|, i requires 0 <= i < |order| => Work(order[i], Reqs(Get(requestsIn, order[i]))))
  }

  function PostTo(th: InThread, r: Req): InThread
  {
    th.(requestsIn := th.requestsIn[r.endpoint := Get(th.requestsIn, r.endpoint) + [Entry(r, false)]])
  }

  predicate Blocked(th: InThread, now: nat)
    requires th.pc.Batch? && th.pc.todo != []
  {
    var ep := th.pc.todo[0].endpoint;
    ep in th.buckets && Blocks(th.buckets[ep], now)
  }

  /** The head request runs: its flag is set, its bucket replaced, and it is ready to be handed over. */
  function RunIn(th: InThread, run: Run): InThread
    requires th.pc.Batch? && th.pc.todo != [] && th.pc.todo[0].reqs != []
  {
    var work, r := th.pc.todo[0], run.req;
    InThread(
      th.requestsIn[r.endpoint := Mark(Get(th.requestsIn, r.endpoint), r.id)],
      th.buckets[r.endpoint := BucketOf(run)],
      Pushing(r, [work.(reqs := work.reqs[1..])] + th.pc.todo[1..]))
  }

  function Clean(requestsIn: map<Endpoint, seq<Entry>>): map<Endpoint, seq<Entry>>
  {
    map ep | ep in requestsIn :: Uncompleted(requestsIn[ep])
  }

  function Next(q: Queue, a: Step): Queue
    requires Enabled(q, a)
  {
    match a
    case Post(r) =>
      var t := ThreadOf(|q.threads|, r.endpoint);
      q.(threads := q.threads[t := PostTo(q.threads[t], r)], posted := q.posted + [r])
    case Snapshot(t, order) =>
      var th := q.threads[t];
      q.(threads := q.threads[t := th.(pc := Batch(Works(th.requestsIn, order)))])
    case RunHead(t, start, finish, reply) =>
      var th := q.threads[t];
      if Blocked(th, start) then q.(threads := q.threads[t := th.(pc := Batch(th.pc.todo[1..]))])
      else
        var run := Run(th.pc.todo[0].reqs[0], start, finish, reply);
        q.(threads := q.threads[t := RunIn(th, run)], ran := q.ran + [run])
    case NextEndpoint(t) =>
      var th := q.threads[t];
      q.(threads := q.threads[t := th.(pc := Batch(th.pc.todo[1..]))])
    case Push(t) =>
      var th := q.threads[t];
      q.(threads := q.threads[t := th.(pc := Batch(th.pc.todo))], responsesOut := q.responsesOut + [th.pc.req])
    case Cleanup(t) =>
      var th := q.threads[t];
      q.(threads := q.threads[t := th.(requestsIn := Clean(th.requestsIn), pc := Resting)])
    case Pop(now) =>
      if q.responsesOut == [] then q.(outPc := Purging(now))
      else q.(outPc := Calling(q.responsesOut[0], now), responsesOut := q.responsesOut[1..])
    case Callback =>
      var r, now := q.outPc.req, q.outPc.now;
      q.(outPc := Purging(now), callbacks := q.callbacks + [r], toDelete := Insert(q.toDelete, Expiry(now + 60, r)))
    case Purge =>
      var n := Expired(q.toDelete, q.outPc.now);
      q.(outPc := Idle, toDelete := q.toDelete[n..], deleted := q.deleted + ExpiryReqs(q.toDelete[..n]))
  }

  /** Steps that can be taken one after the other. */
  predicate Path(q: Queue, steps: seq<Step>)
    decreases |steps|
  {
    steps == [] || (Enabled(q, steps[0]) && Path(Next(q, steps[0]), steps[1..]))
  }

  function After(q: Queue, steps: seq<Step>): Queue
    requires Path(q, steps)
    decreases |steps|
  {
    if steps == [] then q else After(Next(q, steps[0]), steps[1..])
  }

  // ----- The invariant -----

  function Held(pc: InPc): seq<Req>
  {
    if pc.Pushing? then [pc.req] else []
  }

  function Called(pc: OutPc): seq<Req>
  {
    if pc.Calling? then [pc.req] else []
  }

  function Todo(pc: InPc): seq<Work>
  {
    if pc.Resting? then [] else pc.todo
  }

  predicate DistinctIds(reqs: seq<Req>)
  {
    forall i, j :: 0 <= i < j < |reqs| ==> reqs[i].id != reqs[j].id
  }

  predicate WorkOk(requestsIn: map<Endpoint, seq<Entry>>, w: Work)
  {
    w.endpoint in requestsIn && w.reqs <= Pending(requestsIn[w.endpoint])
  }

  /** One endpoint's queue: its own requests, each once, all of them posted. */
  predicate ListOk(ep: Endpoint, entries: seq<Entry>, posted: seq<Req>)
  {
    && DistinctIds(Reqs(entries))
    && forall i :: 0 <= i < |entries| ==> entries[i].req.endpoint == ep && entries[i].req in posted
  }

  predicate ThreadOk(pool: nat, t: nat, th: InThread, posted: seq<Req>)
    requires pool > 0
  {
    && (forall ep :: ep in th.requestsIn ==> ThreadOf(pool, ep) == t && ListOk(ep, th.requestsIn[ep], posted))
    && (th.pc.Resting? ==> forall ep :: ep in th.requestsIn ==> Uncompleted(th.requestsIn[ep]) == th.requestsIn[ep])
    && (th.pc.Pushing? ==> ThreadOf(pool, th.pc.req.endpoint) == t)
    && (forall i :: 0 <= i < |Todo(th.pc)| ==> WorkOk(th.requestsIn, Todo(th.pc)[i]))
    && (forall i, j :: 0 <= i < j < |Todo(th.pc)| ==> Todo(th.pc)[i].endpoint != Todo(th.pc)[j].endpoint)
  }

  /** The last run for an endpoint. */
  function LastRun(ran: seq<Run>, ep: Endpoint): (r: seq<Run>)
    ensures |r| <= 1
  {
    if ran == [] then []
    else if ran[|ran| - 1].req.endpoint == ep then [ran[|ran| - 1]]
    else LastRun(ran[..|ran| - 1], ep)
  }

  /** No run started while the answer to the one before it for the same endpoint said to wait. */
  predicate RateOk(ran: seq<Run>)
  {
    ran == [] ||
    (var last := ran[|ran| - 1];
     var before := LastRun(ran[..|ran| - 1], last.req.endpoint);
     RateOk(ran[..|ran| - 1]) && (before != [] ==> !Blocks(BucketOf(before[0]), last.start)))
  }

  /**
   Everything about one endpoint: its requests were posted, run and called back in one and the same order, and sit in
   that order in the places between; its bucket is its last answer.
   */
  predicate Pipeline(q: Queue, ep: Endpoint)
    requires |q.threads| > 0
  {
    var th := q.threads[ThreadOf(|q.threads|, ep)];
    && Of(RanReqs(q.ran), ep)
       == Of(q.callbacks, ep) + Of(Called(q.outPc), ep) + Of(q.responsesOut, ep) + Of(Held(th.pc), ep)
    && Of(q.posted, ep) == Of(RanReqs(q.ran), ep) + Pending(Get(th.requestsIn, ep))
    && (LastRun(q.ran, ep) == [] ==> ep !in th.buckets)
    && (LastRun(q.ran, ep) != [] ==> ep in th.buckets && th.buckets[ep] == BucketOf(LastRun(q.ran, ep)[0]))
  }

  predicate Sorted(list: seq<Expiry>)
  {
    forall i, j :: 0 <= i < j < |list| ==> list[i].at <= list[j].at
  }

  predicate DeletesOk(q: Queue)
  {
    Sorted(q.toDelete) && multiset(q.callbacks) == multiset(ExpiryReqs(q.toDelete)) + multiset(q.deleted)
  }

  ghost predicate Inv(q: Queue)
  {
    && |q.threads| > 0
    && DistinctIds(q.posted)
    && (forall t :: 0 <= t < |q.threads| ==> ThreadOk(|q.threads|, t, q.threads[t], q.posted))
    && (forall ep :: Pipeline(q, ep))
    && RateOk(q.ran)
    && DeletesOk(q)
  }
}
