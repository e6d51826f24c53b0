/**
 What one bot NPC does when nobody tells it to: timelines on a loop, for somebody who walks up, after a conversation and in
 answer to an emote, and one custom scene. The row is what the driver keeps; the starts and calls are what the map is told.
 */
module BotNpcIdle {
  import opened Wrappers

  type Guid = nat

  const NOBODY: Guid := 0
  const TALK_IDLE_SECONDS := 20

  datatype Kind = Loop | Near | AfterTalk | Emote(id: nat)

  datatype Rule = Rule(enabled: bool, period: nat, scriptId: nat, sceneId: nat) {
    predicate Runs()
    {
      enabled && (scriptId != 0 || sceneId != 0)
    }
  }

  datatype Rules = Rules(loop: Rule, near: Rule, afterTalk: Rule, custom: Rule)

  datatype EmoteRule = EmoteRule(emoteId: nat, period: nat, scriptId: nat)

  /** A timeline started on the map, with the length its script had then and the period its rule had. */
  datatype Start = Start(kind: Kind, scriptId: nat, who: Guid, at: nat, length: nat, period: nat)

  datatype SceneCall = Run(sceneId: nat, generation: nat) | Stop(sceneId: nat)

  datatype Row = Row(
    nextLoop: nat, nextNear: nat, nextAfterTalk: nat,
    busyUntil: nat,
    talker: Guid, talkedAt: nat,
    inside: set<Guid>,
    seenAt: nat,
    customGen: nat, customScene: nat,
    emoteNext: map<nat, nat>
  )

  const FRESH: Row := Row(0, 0, 0, 0, NOBODY, 0, {}, 0, 0, 0, map[])

  /** An NPC with its row, and one that may not have one. */
  datatype Live = Live(row: Row, starts: seq<Start>, calls: seq<SceneCall>)

  datatype Npc = Npc(row: Option<Row>, starts: seq<Start>, calls: seq<SceneCall>)

  function Stored(a: Live): Npc
  {
    Npc(Some(a.row), a.starts, a.calls)
  }

  /** The row an index makes when there is none. */
  function Indexed(n: Npc): Live
  {
    Live(if n.row.Some? then n.row.value else FRESH, n.starts, n.calls)
  }

  // ----- What the driver looks at -----

  datatype Passerby = Passerby(guid: Guid, present: bool, companion: bool, hidden: bool) {
    predicate Counts()
    {
      present && !companion && !hidden
    }
  }

  /** The NPC as a pass finds it. The scripts' lengths and the scenes are those loaded at the time. */
  datatype View = View(
    idle: Option<Rules>, emotes: bool,
    alive: bool, fighting: bool,
    generation: nat, scenes: set<nat>,
    inTalkRange: set<Guid>,
    found: seq<Passerby>,
    lengths: map<nat, nat>
  )

  datatype Emoter = Emoter(
    guid: Guid, textEmote: nat, companion: bool, hidden: bool, inRange: bool,
    rules: Option<seq<EmoteRule>>,
    lengths: map<nat, nat>
  )

  function ScriptLength(lengths: map<nat, nat>, scriptId: nat): nat
  {
    if scriptId in lengths then lengths[scriptId] else 0
  }

  // ----- Clocks -----

  function Due(r: Row, k: Kind): nat
  {
    match k
    case Loop => r.nextLoop
    case Near => r.nextNear
    case AfterTalk => r.nextAfterTalk
    case Emote(id) => if id in r.emoteNext then r.emoteNext[id] else 0
  }

  function SetDue(r: Row, k: Kind, t: nat): (s: Row)
    ensures forall j :: Due(s, j) == if j == k then t else Due(r, j)
    ensures s.busyUntil == r.busyUntil && s.inside == r.inside && s.seenAt == r.seenAt
    ensures s.customGen == r.customGen && s.customScene == r.customScene
  {
    match k
    case Loop => r.(nextLoop := t)
    case Near => r.(nextNear := t)
    case AfterTalk => r.(nextAfterTalk := t)
    case Emote(id) => r.(emoteNext := r.emoteNext[id := t])
  }

  predicate MayFire(r: Row, k: Kind, now: nat)
  {
    now >= Due(r, k) && now >= r.busyUntil
  }

  function Fire(a: Live, k: Kind, scriptId: nat, period: nat, who: Guid, lengths: map<nat, nat>, now: nat): Live
  {
    var length := ScriptLength(lengths, scriptId);
    Live(SetDue(a.row, k, now + period).(busyUntil := now + length),
         a.starts + [Start(k, scriptId, who, now, length, period)],
         a.calls)
  }

  // ----- A tick -----

  function StartCustom(a: Live, sceneId: nat, v: View): Live
  {
    var stopped := if a.row.customScene != 0 then a.calls + [Stop(a.row.customScene)] else a.calls;
    if sceneId !in v.scenes then
      a.(row := a.row.(customGen := v.generation, customScene := 0), calls := stopped)
    else
      a.(row := a.row.(customGen := v.generation, customScene := sceneId), calls := stopped + [Run(sceneId, v.generation)])
  }

  function StopCustom(a: Live): Live
  {
    a.(row := a.row.(customScene := 0, customGen := 0), calls := a.calls + [Stop(a.row.customScene)])
  }

  function CustomStep(a: Live, custom: Rule, v: View): Live
  {
    if custom.Runs() then
      if a.row.customGen != v.generation then StartCustom(a, custom.sceneId, v) else a
    else if a.row.customScene != 0 then StopCustom(a) else a
  }

  /** Still talking: in range, and the last click is less than twenty seconds old in unsigned 32-bit arithmetic. */
  predicate Talking(r: Row, v: View, now: nat)
  {
    r.talker != NOBODY && r.talker in v.inTalkRange && (now - r.talkedAt) % 0x1_0000_0000 < TALK_IDLE_SECONDS
  }

  function TalkStep(a: Live, rule: Rule, v: View, now: nat): Live
  {
    if a.row.talker == NOBODY || Talking(a.row, v, now) then a
    else
      var who := if a.row.talker in v.inTalkRange then a.row.talker else NOBODY;
      var b := a.(row := a.row.(talker := NOBODY));
      if rule.Runs() && MayFire(b.row, AfterTalk, now) then
        Fire(b, AfterTalk, rule.scriptId, rule.period, who, v.lengths, now)
      else b
  }

  function Present(found: seq<Passerby>): set<Guid>
  {
    set i | 0 <= i < |found| && found[i].Counts() :: found[i].guid
  }

  /** The first of those found who was not inside before. */
  function Arrival(found: seq<Passerby>, inside: set<Guid>): (g: Guid)
    ensures g != NOBODY ==> g in Present(found) && g !in inside
    ensures g == NOBODY ==> Present(found) <= inside + {NOBODY}
  {
    if found == [] then NOBODY
    else
      var rest := Arrival(found[1..], inside);
      assert forall i :: 0 <= i < |found[1..]| ==> found[1..][i] == found[i + 1];
      assert Present(found) == Present(found[1..]) + if found[0].Counts() then {found[0].guid} else {};
      if found[0].Counts() && found[0].guid !in inside && found[0].guid != NOBODY then found[0].guid else rest
  }

  function NearStep(a: Live, rule: Rule, v: View, talking: bool, now: nat): Live
  {
    if rule.Runs() then
      var arrived := Arrival(v.found, a.row.inside);
      var b := a.(row := a.row.(inside := Present(v.found)));
      if arrived != NOBODY && !talking && MayFire(b.row, Near, now) then
        Fire(b, Near, rule.scriptId, rule.period, arrived, v.lengths, now)
      else b
    else a.(row := a.row.(inside := {}))
  }

  function LoopStep(a: Live, rule: Rule, v: View, talking: bool, now: nat): Live
  {
    if rule.Runs() && !talking && MayFire(a.row, Loop, now) then
      Fire(a, Loop, rule.scriptId, rule.period, NOBODY, v.lengths, now)
    else a
  }

  function Tick(a: Live, rules: Rules, v: View, now: nat): Live
  {
    var b := a.(row := a.row.(seenAt := now));
    if !v.alive || v.fighting then b
    else
      var c := CustomStep(b, rules.custom, v);
      var talking := Talking(c.row, v, now);
      var d := TalkStep(c, rules.afterTalk, v, now);
      var e := NearStep(d, rules.near, v, talking, now);
      LoopStep(e, rules.loop, v, talking, now)
  }

  // ----- A pass, a click, an emote -----

  function See(n: Npc, v: View, now: nat): Npc
  {
    if v.idle.Some? then Stored(Tick(Indexed(n), v.idle.value, v, now))
    else if v.emotes && n.row.Some? then n.(row := Some(n.row.value.(seenAt := now)))
    else n
  }

  function Sweep(n: Npc, now: nat): Npc
  {
    if n.row.None? || n.row.value.seenAt == now then n
    else
      Npc(None, n.starts,
          if n.row.value.customScene != 0 then n.calls + [Stop(n.row.value.customScene)] else n.calls)
  }

  /** One pass over the map's players; without a view the NPC was not among them. */
  function Pass(n: Npc, view: Option<View>, now: nat): Npc
  {
    Sweep(if view.Some? then See(n, view.value, now) else n, now)
  }

  function NoteTalk(n: Npc, who: Guid, now: nat): Npc
  {
    if n.row.None? then n else n.(row := Some(n.row.value.(talker := who, talkedAt := now)))
  }

  function RuleFor(rules: seq<EmoteRule>, id: nat): (r: Option<EmoteRule>)
    ensures r.Some? <==> exists i :: 0 <= i < |rules| && rules[i].emoteId == id
    ensures r.Some? ==> r.value in rules && r.value.emoteId == id
  {
    if rules == [] then None
    else if rules[0].emoteId == id then Some(rules[0])
    else
      var rest := RuleFor(rules[1..], id);
      assert forall i :: 0 < i < |rules| ==> rules[i] == rules[1..][i - 1];
      rest
  }

  predicate Answers(e: Emoter)
  {
    e.rules.Some? && RuleFor(e.rules.value, e.textEmote).Some? && !e.companion && !e.hidden && e.inRange
  }

  function ReceiveEmote(n: Npc, e: Emoter, now: nat): Npc
  {
    if !Answers(e) then n
    else
      var rule := RuleFor(e.rules.value, e.textEmote).value;
      var a := Indexed(n);
      if !MayFire(a.row, Emote(e.textEmote), now) then Stored(a)
      else
        var b := Fire(a, Emote(e.textEmote), rule.scriptId, rule.period, e.guid, e.lengths, now);
        Stored(b.(row := b.row.(seenAt := now)))
  }

  datatype Event =
    | Passed(now: nat, view: Option<View>)
    | Clicked(now: nat, who: Guid)
    | Emoted(now: nat, emoter: Emoter)
    | Forgotten       // the last rule on the server was deleted

  function Next(n: Npc, e: Event): Npc
  {
    match e
    case Passed(now, view) => Pass(n, view, now)
    case Clicked(now, who) => NoteTalk(n, who, now)
    case Emoted(now, emoter) => ReceiveEmote(n, emoter, now)
    case Forgotten => n.(row := None)
  }

  function After(n: Npc, events: seq<Event>): Npc
    decreases |events|
  {
    if events == [] then n else After(Next(n, events[0]), events[1..])
  }

  // ----- Timelines do not overlap -----

  /** Every timeline is over before the next begins, and one kind starts again only when its period has passed. */
  predicate Spaced(starts: seq<Start>)
  {
    forall i, j :: 0 <= i < j < |starts| ==>
      && starts[i].at + starts[i].length <= starts[j].at
      && (starts[i].kind == starts[j].kind ==> starts[i].at + starts[i].period <= starts[j].at)
  }

  predicate Covers(r: Row, starts: seq<Start>)
  {
    forall i :: 0 <= i < |starts| ==>
      && starts[i].at + starts[i].length <= r.busyUntil
      && starts[i].at + starts[i].period <= Due(r, starts[i].kind)
  }

  predicate Orderly(n: Npc)
  {
    && Spaced(n.starts)
    && (n.row.None? ==> n.starts == [])
    && (n.row.Some? ==> Covers(n.row.value, n.starts))
  }

  lemma FireKeeps(a: Live, k: Kind, scriptId: nat, period: nat, who: Guid, lengths: map<nat, nat>, now: nat)
    requires Spaced(a.starts) && Covers(a.row, a.starts) && MayFire(a.row, k, now)
    ensures var b := Fire(a, k, scriptId, period, who, lengths, now); Spaced(b.starts) && Covers(b.row, b.starts)
  {
  }

  lemma TickKeeps(a: Live, rules: Rules, v: View, now: nat)
    requires Spaced(a.starts) && Covers(a.row, a.starts)
    ensures var b := Tick(a, rules, v, now); Spaced(b.starts) && Covers(b.row, b.starts) && b.row.seenAt == now
  {
    hide Spaced, Fire, MayFire, Arrival, Present;
    var b := a.(row := a.row.(seenAt := now));
    if v.alive && !v.fighting {
      var c := CustomStep(b, rules.custom, v);
      assert c.starts == a.starts && Covers(c.row, c.starts);
      var talking := Talking(c.row, v, now);
      var d := TalkStep(c, rules.afterTalk, v, now);
      TalkKeeps(c, rules.afterTalk, v, now);
      var e := NearStep(d, rules.near, v, talking, now);
      NearKeeps(d, rules.near, v, talking, now);
      LoopKeeps(e, rules.loop, v, talking, now);
    }
  }

  lemma TalkKeeps(a: Live, rule: Rule, v: View, now: nat)
    requires Spaced(a.starts) && Covers(a.row, a.starts)
    ensures var b := TalkStep(a, rule, v, now); Spaced(b.starts) && Covers(b.row, b.starts) && b.row.seenAt == a.row.seenAt
  {
    hide Spaced;
    if a.row.talker != NOBODY && !Talking(a.row, v, now) {
      var who := if a.row.talker in v.inTalkRange then a.row.talker else NOBODY;
      var b := a.(row := a.row.(talker := NOBODY));
      if rule.Runs() && MayFire(b.row, AfterTalk, now) {
        FireKeeps(b, AfterTalk, rule.scriptId, rule.period, who, v.lengths, now);
      }
    }
  }

  lemma NearKeeps(a: Live, rule: Rule, v: View, talking: bool, now: nat)
    requires Spaced(a.starts) && Covers(a.row, a.starts)
    ensures var b := NearStep(a, rule, v, talking, now);
            Spaced(b.starts) && Covers(b.row, b.starts) && b.row.seenAt == a.row.seenAt
  {
    hide Spaced, Present;
    var arrived := Arrival(v.found, a.row.inside);
    var b := a.(row := a.row.(inside := Present(v.found)));
    if rule.Runs() && arrived != NOBODY && !talking && MayFire(b.row, Near, now) {
      FireKeeps(b, Near, rule.scriptId, rule.period, arrived, v.lengths, now);
    }
  }

  lemma LoopKeeps(a: Live, rule: Rule, v: View, talking: bool, now: nat)
    requires Spaced(a.starts) && Covers(a.row, a.starts)
    ensures var b := LoopStep(a, rule, v, talking, now);
            Spaced(b.starts) && Covers(b.row, b.starts) && b.row.seenAt == a.row.seenAt
  {
    hide Spaced;
    if rule.Runs() && !talking && MayFire(a.row, Loop, now) {
      FireKeeps(a, Loop, rule.scriptId, rule.period, NOBODY, v.lengths, now);
    }
  }

  /** An event that leaves the row in place: every pass sees the NPC, with an idle rule or an emote rule to its name. */
  predicate Attended(e: Event)
  {
    && !e.Forgotten?
    && (e.Passed? ==> e.view.Some? && (e.view.value.idle.Some? || e.view.value.emotes))
  }

  lemma EventKeeps(n: Npc, e: Event)
    requires Orderly(n) && Attended(e)
    ensures Orderly(Next(n, e)) && (n.row.Some? ==> Next(n, e).row.Some?)
  {
    match e
    case Passed(now, view) =>
      hide Tick, Spaced;
      if view.value.idle.Some? {
        TickKeeps(Indexed(n), view.value.idle.value, view.value, now);
      }
    case Clicked(now, who) =>
    case Emoted(now, emoter) =>
      hide Spaced, Fire, MayFire;
      if Answers(emoter) {
        var rule := RuleFor(emoter.rules.value, emoter.textEmote).value;
        if MayFire(Indexed(n).row, Emote(emoter.textEmote), now) {
          FireKeeps(Indexed(n), Emote(emoter.textEmote), rule.scriptId, rule.period, emoter.guid, emoter.lengths, now);
        }
      }
  }

  /** While every pass sees the NPC, a row once made stays, and its timelines never overlap or come too soon. */
  lemma {:induction false} TimelinesAreSpaced(n: Npc, events: seq<Event>)
    requires Orderly(n)
    requires forall i :: 0 <= i < |events| ==> Attended(events[i])
    ensures Orderly(After(n, events)) && (n.row.Some? ==> After(n, events).row.Some?)
    decreases |events|
  {
    hide Orderly, Next;
    if events != [] {
      EventKeeps(n, events[0]);
      TimelinesAreSpaced(Next(n, events[0]), events[1..]);
    }
  }

  /** A row goes only in a pass that did not see the NPC, or saw it without a rule, at another second than the last sight. */
  lemma RowIsKept(n: Npc, e: Event)
    requires n.row.Some?
    ensures Next(n, e).row.None? <==>
            || e.Forgotten?
            || (e.Passed? && e.now != n.row.value.seenAt
                && (e.view.None? || (e.view.value.idle.None? && !e.view.value.emotes)))
    ensures e.Passed? && e.view.Some? && e.view.value.idle.None? && e.view.value.emotes
            ==> Next(n, e) == n.(row := Some(n.row.value.(seenAt := e.now)))
  {
    hide Arrival, Present;
    if e.Passed? && e.view.Some? && e.view.value.idle.Some? {
      TickStamps(Indexed(n), e.view.value.idle.value, e.view.value, e.now);
    }
  }

  lemma TickStamps(a: Live, rules: Rules, v: View, now: nat)
    ensures Tick(a, rules, v, now).row.seenAt == now
  {
    hide Tick;
    TickOnScene(a, rules, v, now);
  }

  /** An NPC whose loop is due, who is free and to whom nobody talks starts something in this very tick. */
  lemma NeverIdle(a: Live, rules: Rules, v: View, now: nat)
    requires v.alive && !v.fighting && rules.loop.Runs() && !Talking(a.row, v, now) && MayFire(a.row, Loop, now)
    ensures |Tick(a, rules, v, now).starts| > |a.starts|
  {
    hide Arrival, Present, CustomStep;
    var b := a.(row := a.row.(seenAt := now));
    var c := CustomStep(b, rules.custom, v);
    CustomIsApart(b, rules.custom, v);
    var d := TalkStep(c, rules.afterTalk, v, now);
    assert d.starts == c.starts ==> MayFire(d.row, Loop, now);
    var e := NearStep(d, rules.near, v, false, now);
    assert e.starts == d.starts ==> e.row.(inside := d.row.inside) == d.row;
  }

  lemma CustomIsApart(a: Live, custom: Rule, v: View)
    ensures var b := CustomStep(a, custom, v);
            b.starts == a.starts && b.row.(customGen := a.row.customGen, customScene := a.row.customScene) == a.row
  {
  }

  // ----- Greetings -----

  /** Whether a pass looks at who is near: the NPC is seen, alive and at peace, and has idle rules. */
  predicate Processes(e: Event)
  {
    e.Passed? && e.view.Some? && e.view.value.idle.Some? && e.view.value.alive && !e.view.value.fighting
  }

  predicate Stays(e: Event, g: Guid)
  {
    && !e.Forgotten?
    && (e.Passed? ==> Attended(e))
    && (Processes(e) ==> e.view.value.idle.value.near.Runs() && g in Present(e.view.value.found))
  }

  predicate Greets(s: Start, g: Guid)
  {
    s.kind == Near && s.who == g
  }

  /** The second list goes on from the first without greeting this player. */
  predicate Ungreeted(was: seq<Start>, starts: seq<Start>, g: Guid)
  {
    was <= starts && forall i :: |was| <= i < |starts| ==> !Greets(starts[i], g)
  }

  lemma UngreetedOn(a: seq<Start>, b: seq<Start>, c: seq<Start>, g: Guid)
    requires Ungreeted(a, b, g) && Ungreeted(b, c, g)
    ensures Ungreeted(a, c, g)
  {
  }

  lemma FireGreets(a: Live, k: Kind, scriptId: nat, period: nat, who: Guid, lengths: map<nat, nat>, now: nat, g: Guid)
    requires k != Near || who != g
    ensures var b := Fire(a, k, scriptId, period, who, lengths, now);
            Ungreeted(a.starts, b.starts, g) && b.row.inside == a.row.inside && b.row.seenAt == a.row.seenAt
  {
  }

  lemma NearGreets(a: Live, rule: Rule, v: View, talking: bool, now: nat, g: Guid)
    requires g != NOBODY
    ensures var b := NearStep(a, rule, v, talking, now);
            && b.row.inside == (if rule.Runs() then Present(v.found) else {}) && b.row.seenAt == a.row.seenAt
            && (Ungreeted(a.starts, b.starts, g) || (g !in a.row.inside && g in Present(v.found) && rule.Runs()))
  {
    hide Present, Arrival, MayFire, Fire, Greets;
    var arrived := Arrival(v.found, a.row.inside);
    var b := a.(row := a.row.(inside := Present(v.found)));
    var fired := Fire(b, Near, rule.scriptId, rule.period, arrived, v.lengths, now);
    if arrived != g {
      FireGreets(b, Near, rule.scriptId, rule.period, arrived, v.lengths, now, g);
    }
    assert fired.row.inside == b.row.inside && fired.row.seenAt == b.row.seenAt by {
      FireGreets(b, Near, rule.scriptId, rule.period, arrived, v.lengths, now, arrived + 1);
    }
  }

  lemma TalkGreets(a: Live, rule: Rule, v: View, now: nat, g: Guid)
    ensures var b := TalkStep(a, rule, v, now);
            Ungreeted(a.starts, b.starts, g) && b.row.inside == a.row.inside && b.row.seenAt == a.row.seenAt
  {
    hide MayFire, Talking, Fire, Greets;
    var who := if a.row.talker in v.inTalkRange then a.row.talker else NOBODY;
    FireGreets(a.(row := a.row.(talker := NOBODY)), AfterTalk, rule.scriptId, rule.period, who, v.lengths, now, g);
  }

  lemma LoopGreets(a: Live, rule: Rule, v: View, talking: bool, now: nat, g: Guid)
    ensures var b := LoopStep(a, rule, v, talking, now);
            Ungreeted(a.starts, b.starts, g) && b.row.inside == a.row.inside && b.row.seenAt == a.row.seenAt
  {
    hide MayFire, Fire, Greets;
    FireGreets(a, Loop, rule.scriptId, rule.period, NOBODY, v.lengths, now, g);
  }

  lemma TickGreets(a: Live, rules: Rules, v: View, now: nat, g: Guid)
    requires v.alive && !v.fighting && g != NOBODY
    ensures var b := Tick(a, rules, v, now);
            && b.row.inside == (if rules.near.Runs() then Present(v.found) else {}) && b.row.seenAt == now
            && (Ungreeted(a.starts, b.starts, g) || (g !in a.row.inside && g in Present(v.found) && rules.near.Runs()))
  {
    var c := CustomStep(a.(row := a.row.(seenAt := now)), rules.custom, v);
    assert c.starts == a.starts && c.row.inside == a.row.inside && c.row.seenAt == now;
    var talking := Talking(c.row, v, now);
    var d := TalkStep(c, rules.afterTalk, v, now);
    var e := NearStep(d, rules.near, v, talking, now);
    hide Present, Talking, CustomStep, TalkStep, NearStep, LoopStep, Ungreeted;
    TalkGreets(c, rules.afterTalk, v, now, g);
    NearGreets(d, rules.near, v, talking, now, g);
    LoopGreets(e, rules.loop, v, talking, now, g);
    if Ungreeted(d.starts, e.starts, g) {
      UngreetedOn(c.starts, d.starts, e.starts, g);
      UngreetedOn(c.starts, e.starts, LoopStep(e, rules.loop, v, talking, now).starts, g);
    }
  }

  /** Who is greeted, in a tick that looks, was not inside when the last such tick ended, and is now. */
  lemma GreetsArrivals(n: Npc, e: Event, g: Guid)
    requires n.row.Some? && g != NOBODY
    ensures var m := Next(n, e);
            && (Ungreeted(n.starts, m.starts, g)
                || (Processes(e) && g !in n.row.value.inside && g in Present(e.view.value.found)
                    && e.view.value.idle.value.near.Runs()))
            && (Processes(e) ==>
                  m.row.Some? && m.row.value.inside
                                 == if e.view.value.idle.value.near.Runs() then Present(e.view.value.found) else {})
            && (!Processes(e) && m.row.Some? ==> m.row.value.inside == n.row.value.inside)
  {
    match e
    case Passed(now, view) =>
      hide Arrival, Present, MayFire, Talking, Due, CustomStep, TalkStep, NearStep, LoopStep;
      if Processes(e) {
        hide Tick;
        TickGreets(Indexed(n), view.value.idle.value, view.value, now, g);
      }
    case Clicked(now, who) =>
    case Emoted(now, emoter) =>
      hide MayFire, Fire;
      if Answers(emoter) {
        var rule := RuleFor(emoter.rules.value, emoter.textEmote).value;
        FireGreets(Indexed(n), Emote(emoter.textEmote), rule.scriptId, rule.period, emoter.guid, emoter.lengths, now, g);
      }
    case Forgotten =>
  }

  /** Somebody who came in is not greeted again while they stay: a second greeting takes leaving and coming back. */
  lemma {:induction false} OneGreetingAVisit(n: Npc, events: seq<Event>, g: Guid)
    requires n.row.Some? && g in n.row.value.inside && g != NOBODY
    requires forall i :: 0 <= i < |events| ==> Stays(events[i], g)
    ensures var end := After(n, events);
            end.row.Some? && g in end.row.value.inside && Ungreeted(n.starts, end.starts, g)
    decreases |events|
  {
    hide Next, Present, Ungreeted, Attended;
    if events == [] {
      Nobody(n.starts, g);
    } else {
      var m := Next(n, events[0]);
      GreetsArrivals(n, events[0], g);
      StaysKeeps(n, events[0], g);
      OneGreetingAVisit(m, events[1..], g);
      UngreetedOn(n.starts, m.starts, After(m, events[1..]).starts, g);
    }
  }

  lemma Nobody(starts: seq<Start>, g: Guid)
    ensures Ungreeted(starts, starts, g)
  {
  }

  lemma StaysKeeps(n: Npc, e: Event, g: Guid)
    requires n.row.Some? && Stays(e, g)
    ensures Next(n, e).row.Some?
  {
    hide Present;
    RowIsKept(n, e);
  }

  // ----- The custom scene -----

  /** The copies of scenes running for this NPC: a stop ends every copy of a scene. */
  function Running(calls: seq<SceneCall>): multiset<nat>
  {
    if calls == [] then multiset{}
    else
      var before := Running(calls[..|calls| - 1]);
      match calls[|calls| - 1]
      case Run(s, _) => before + multiset{s}
      case Stop(s) => before[s := 0]
  }

  lemma RunningAfter(calls: seq<SceneCall>, call: SceneCall)
    ensures Running(calls + [call])
            == if call.Run? then Running(calls) + multiset{call.sceneId} else Running(calls)[call.sceneId := 0]
  {
    assert (calls + [call])[..|calls|] == calls;
  }

  /** What runs is the scene the row names, once; without a row, nothing. */
  predicate OneScene(n: Npc)
  {
    Running(n.calls) == if n.row.Some? && n.row.value.customScene != 0 then multiset{n.row.value.customScene} else multiset{}
  }

  /** The loader gives a custom rule a scene or leaves it out. */
  predicate AsLoaded(e: Event)
  {
    e.Passed? && e.view.Some? && e.view.value.idle.Some? && e.view.value.idle.value.custom.Runs() ==>
      e.view.value.idle.value.custom.sceneId != 0
  }

  lemma StopEmpties(a: Live)
    requires OneScene(Stored(a)) && a.row.customScene != 0
    ensures Running(a.calls + [Stop(a.row.customScene)]) == multiset{}
  {
    RunningAfter(a.calls, Stop(a.row.customScene));
  }

  lemma CustomKeeps(a: Live, custom: Rule, v: View)
    requires OneScene(Stored(a)) && (custom.Runs() ==> custom.sceneId != 0)
    ensures OneScene(Stored(CustomStep(a, custom, v)))
  {
    hide Running;
    if a.row.customScene != 0 {
      StopEmpties(a);
    }
    var stopped := if a.row.customScene != 0 then a.calls + [Stop(a.row.customScene)] else a.calls;
    RunningAfter(stopped, Run(custom.sceneId, v.generation));
  }

  /** Nothing to do with the custom scene or the stamp has changed. */
  predicate SameScene(a: Live, b: Live)
  {
    && a.calls == b.calls && a.row.seenAt == b.row.seenAt
    && a.row.customScene == b.row.customScene && a.row.customGen == b.row.customGen
  }

  lemma FireOnScene(a: Live, k: Kind, scriptId: nat, period: nat, who: Guid, lengths: map<nat, nat>, now: nat)
    ensures SameScene(a, Fire(a, k, scriptId, period, who, lengths, now))
  {
  }

  lemma StepsOnScene(a: Live, rule: Rule, v: View, talking: bool, now: nat)
    ensures SameScene(a, TalkStep(a, rule, v, now))
    ensures SameScene(a, NearStep(a, rule, v, talking, now))
    ensures SameScene(a, LoopStep(a, rule, v, talking, now))
  {
    hide Arrival, Present, MayFire, Talking, Fire;
    var who := if a.row.talker in v.inTalkRange then a.row.talker else NOBODY;
    var arrived := Arrival(v.found, a.row.inside);
    FireOnScene(a.(row := a.row.(talker := NOBODY)), AfterTalk, rule.scriptId, rule.period, who, v.lengths, now);
    FireOnScene(a.(row := a.row.(inside := Present(v.found))), Near, rule.scriptId, rule.period, arrived, v.lengths, now);
    FireOnScene(a, Loop, rule.scriptId, rule.period, NOBODY, v.lengths, now);
  }

  lemma TickOnScene(a: Live, rules: Rules, v: View, now: nat)
    ensures var b := a.(row := a.row.(seenAt := now));
            SameScene(if !v.alive || v.fighting then b else CustomStep(b, rules.custom, v), Tick(a, rules, v, now))
  {
    if v.alive && !v.fighting {
      var c := CustomStep(a.(row := a.row.(seenAt := now)), rules.custom, v);
      var talking := Talking(c.row, v, now);
      var d := TalkStep(c, rules.afterTalk, v, now);
      hide CustomStep, TalkStep, NearStep, LoopStep, Talking;
      StepsOnScene(c, rules.afterTalk, v, talking, now);
      StepsOnScene(d, rules.near, v, talking, now);
      StepsOnScene(NearStep(d, rules.near, v, talking, now), rules.loop, v, talking, now);
    }
  }

  lemma SceneEventKeeps(n: Npc, e: Event)
    requires OneScene(n) && AsLoaded(e) && !e.Forgotten?
    ensures OneScene(Next(n, e))
  {
    match e
    case Passed(now, view) =>
      hide Tick, CustomStep, Running;
      var m := if view.Some? then See(n, view.value, now) else n;
      if view.Some? && view.value.idle.Some? {
        var a := Indexed(n);
        TickOnScene(a, view.value.idle.value, view.value, now);
        CustomKeeps(a.(row := a.row.(seenAt := now)), view.value.idle.value.custom, view.value);
      }
      SweepKeeps(m, now);
    case Clicked(now, who) =>
    case Emoted(now, emoter) =>
      hide Running, MayFire;
  }

  lemma SweepKeeps(n: Npc, now: nat)
    requires OneScene(n)
    ensures OneScene(Sweep(n, now))
  {
    if n.row.Some? {
      RunningAfter(n.calls, Stop(n.row.value.customScene));
    }
  }

  /** Over every run: never two copies of a scene, never a scene the row has lost sight of. */
  lemma {:induction false} OneSceneAtATime(n: Npc, events: seq<Event>)
    requires OneScene(n)
    requires forall i :: 0 <= i < |events| ==> AsLoaded(events[i]) && !events[i].Forgotten?
    ensures OneScene(After(n, events))
    decreases |events|
  {
    hide OneScene, Next;
    if events != [] {
      SceneEventKeeps(n, events[0]);
      OneSceneAtATime(Next(n, events[0]), events[1..]);
    }
  }

  /** Forgetting every row at once stops no scene: it is safe exactly for an NPC without one. */
  lemma ForgettingLeavesTheScene(n: Npc)
    requires OneScene(n)
    ensures OneScene(Next(n, Forgotten)) <==> n.row.None? || n.row.value.customScene == 0
  {
    if n.row.Some? && n.row.value.customScene != 0 {
      assert n.row.value.customScene in Running(n.calls);
    }
  }

  // ----- Once per generation -----

  /** The rules are those of their generation: a reload makes a new one, and generations only grow. */
  predicate OfGeneration(e: Event, runs: map<nat, bool>, generation: nat)
  {
    e.Passed? && e.view.Some? && e.view.value.idle.Some? ==>
      && e.view.value.generation == generation && generation in runs
      && e.view.value.idle.value.custom.Runs() == runs[generation]
  }

  function Runs(calls: seq<SceneCall>): (gens: seq<nat>)
  {
    if calls == [] then []
    else
      var before := Runs(calls[..|calls| - 1]);
      match calls[|calls| - 1]
      case Run(_, g) => before + [g]
      case Stop(_) => before
  }

  lemma RunsAfter(calls: seq<SceneCall>, call: SceneCall)
    ensures Runs(calls + [call]) == if call.Run? then Runs(calls) + [call.generation] else Runs(calls)
  {
    assert (calls + [call])[..|calls|] == calls;
  }

  predicate Growing(gens: seq<nat>)
  {
    forall i, j :: 0 <= i < j < |gens| ==> gens[i] < gens[j]
  }

  /** The scene was started at most once in each generation up to this one, and if in this one the row says so. */
  predicate OnceEach(n: Npc, runs: map<nat, bool>, generation: nat)
  {
    var gens := Runs(n.calls);
    && Growing(gens)
    && (gens != [] ==> gens[|gens| - 1] <= generation)
    && (n.row.None? ==> gens == [])
    && (gens != [] && gens[|gens| - 1] == generation ==>
          n.row.Some? && n.row.value.customGen == generation && generation in runs && runs[generation])
  }

  lemma CustomOnce(a: Live, custom: Rule, v: View, runs: map<nat, bool>)
    requires OnceEach(Stored(a), runs, v.generation)
    requires v.generation in runs && custom.Runs() == runs[v.generation]
    ensures OnceEach(Stored(CustomStep(a, custom, v)), runs, v.generation)
  {
    hide Runs;
    var stop := Stop(a.row.customScene);
    RunsAfter(a.calls, stop);
    var stopped := if a.row.customScene != 0 then a.calls + [stop] else a.calls;
    RunsAfter(stopped, Run(custom.sceneId, v.generation));
  }

  lemma OnceEventKeeps(n: Npc, e: Event, runs: map<nat, bool>, generation: nat)
    requires OnceEach(n, runs, generation) && OfGeneration(e, runs, generation) && Attended(e)
    ensures OnceEach(Next(n, e), runs, generation)
  {
    match e
    case Passed(now, view) =>
      hide Tick, CustomStep, Runs, Growing;
      if view.value.idle.Some? {
        var a := Indexed(n);
        TickOnScene(a, view.value.idle.value, view.value, now);
        TickStamps(a, view.value.idle.value, view.value, now);
        CustomOnce(a.(row := a.row.(seenAt := now)), view.value.idle.value.custom, view.value, runs);
      }
    case Clicked(now, who) =>
    case Emoted(now, emoter) =>
      hide Runs, MayFire, Growing;
  }

  lemma OnceLater(n: Npc, runs: map<nat, bool>, before: nat, now: nat)
    requires OnceEach(n, runs, before) && before <= now
    ensures OnceEach(n, runs, now)
  {
  }

  /** While the NPC keeps its row, its custom scene is started at most once in each generation of the rules. */
  lemma {:induction false} OncePerGeneration(n: Npc, events: seq<Event>, generations: seq<nat>, runs: map<nat, bool>, before: nat)
    requires |generations| == |events| && OnceEach(n, runs, before)
    requires forall i :: 0 <= i < |events| ==> Attended(events[i]) && OfGeneration(events[i], runs, generations[i])
    requires forall i :: 0 <= i < |events| ==> before <= generations[i]
    requires forall i, j :: 0 <= i < j < |events| ==> generations[i] <= generations[j]
    ensures Growing(Runs(After(n, events).calls))
    decreases |events|
  {
    hide Next, Runs, Growing, OfGeneration, Attended;
    if events != [] {
      OnceLater(n, runs, before, generations[0]);
      OnceEventKeeps(n, events[0], runs, generations[0]);
      OncePerGeneration(Next(n, events[0]), events[1..], generations[1..], runs, generations[0]);
    }
  }
}
