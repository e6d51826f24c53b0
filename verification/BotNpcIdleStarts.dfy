/** What a bot NPC starts and when, in one closed form for each event: whatever is due and free does start. */
module BotNpcIdleStarts {
  import opened Wrappers
  import opened BotNpcIdle

  /** A rule that is switched on and names something to run. */
  predicate On(rule: Rule)
  {
    rule.enabled && !(rule.scriptId == 0 && rule.sceneId == 0)
  }

  function Length(v: View, scriptId: nat): nat
  {
    if scriptId in v.lengths then v.lengths[scriptId] else 0
  }

  // ----- Conversations and arrivals -----

  predicate IsTalking(r: Row, v: View, now: nat)
  {
    r.talker != 0 && r.talker in v.inTalkRange && (now - r.talkedAt) % 4294967296 < 20
  }

  /** A conversation that is over: the talker has left, or has not clicked for twenty seconds. */
  predicate HasEnded(r: Row, v: View, now: nat)
  {
    r.talker != 0 && !IsTalking(r, v, now)
  }

  /** The first of those found who is in the world, no companion and not hidden, and was not inside before. */
  predicate IsFirst(found: seq<Passerby>, inside: set<Guid>, i: int)
  {
    0 <= i < |found| && IsNew(found[i], inside) && forall j :: 0 <= j < i ==> !IsNew(found[j], inside)
  }

  predicate IsNew(p: Passerby, inside: set<Guid>)
  {
    p.present && !p.companion && !p.hidden && p.guid != 0 && p.guid !in inside
  }

  lemma {:induction false} ArrivalIs(found: seq<Passerby>, inside: set<Guid>)
    ensures (forall i :: 0 <= i < |found| ==> !IsNew(found[i], inside)) ==> Arrival(found, inside) == 0
    ensures forall i :: IsFirst(found, inside, i) ==> Arrival(found, inside) == found[i].guid != 0
  {
    if found != [] {
      ArrivalIs(found[1..], inside);
      assert forall i :: 0 < i < |found| ==> found[i] == found[1..][i - 1];
      forall i | IsFirst(found, inside, i)
        ensures Arrival(found, inside) == found[i].guid
      {
        if i > 0 {
          assert !IsNew(found[0], inside);
          assert IsFirst(found[1..], inside, i - 1);
        }
      }
    }
  }

  lemma {:induction false} SomebodyIsFirst(found: seq<Passerby>, inside: set<Guid>)
    ensures (exists i :: 0 <= i < |found| && IsNew(found[i], inside)) <==> exists i :: IsFirst(found, inside, i)
  {
    if found != [] && !IsNew(found[0], inside) {
      SomebodyIsFirst(found[1..], inside);
      assert forall i :: 0 < i < |found| ==> found[i] == found[1..][i - 1];
      if i :| IsFirst(found[1..], inside, i) {
        assert IsFirst(found, inside, i + 1);
      }
      if i :| 0 <= i < |found| && IsNew(found[i], inside) {
        assert 0 <= i - 1 < |found[1..]| && IsNew(found[1..][i - 1], inside);
      }
    } else if found != [] {
      assert IsFirst(found, inside, 0);
    }
  }

  function Newcomer(found: seq<Passerby>, inside: set<Guid>): (g: Guid)
    ensures (g != 0 <==> exists i :: IsFirst(found, inside, i))
    ensures forall i :: IsFirst(found, inside, i) ==> g == found[i].guid
  {
    ArrivalIs(found, inside);
    SomebodyIsFirst(found, inside);
    Arrival(found, inside)
  }

  // ----- A tick -----

  /** The parting line: a conversation is over, and its rule is on, due and free. */
  predicate Parts(r: Row, rules: Rules, v: View, now: nat)
  {
    HasEnded(r, v, now) && On(rules.afterTalk) && now >= r.nextAfterTalk && now >= r.busyUntil
  }

  /** The greeting: somebody came in, nobody talks, its rule is on and due, and nothing of any length has just started. */
  predicate Greets(r: Row, rules: Rules, v: View, now: nat)
  {
    && On(rules.near) && Newcomer(v.found, r.inside) != 0 && !IsTalking(r, v, now) && now >= r.nextNear
    && if Parts(r, rules, v, now) then Length(v, rules.afterTalk.scriptId) == 0 else now >= r.busyUntil
  }

  /** The chores: nobody talks, the rule is on and due, and nothing of any length has just started. */
  predicate Works(r: Row, rules: Rules, v: View, now: nat)
  {
    && On(rules.loop) && !IsTalking(r, v, now) && now >= r.nextLoop
    && if Greets(r, rules, v, now) then Length(v, rules.near.scriptId) == 0
       else if Parts(r, rules, v, now) then Length(v, rules.afterTalk.scriptId) == 0 else now >= r.busyUntil
  }

  function Begun(kind: Kind, rule: Rule, who: Guid, v: View, now: nat): Start
  {
    Start(kind, rule.scriptId, who, now, Length(v, rule.scriptId), rule.period)
  }

  /** All that a tick starts, in order: to whoever is still there, to the newcomer, to nobody. */
  function Starts(r: Row, rules: Rules, v: View, now: nat): seq<Start>
  {
    (if Parts(r, rules, v, now) then
       [Begun(AfterTalk, rules.afterTalk, if r.talker in v.inTalkRange then r.talker else 0, v, now)]
     else [])
    + (if Greets(r, rules, v, now) then [Begun(Near, rules.near, Newcomer(v.found, r.inside), v, now)] else [])
    + (if Works(r, rules, v, now) then [Begun(Loop, rules.loop, 0, v, now)] else [])
  }

  /** A tick of an NPC that is alive and not fighting starts exactly that, and its clocks tell so; any other starts nothing. */
  lemma TickStarts(a: Live, rules: Rules, v: View, now: nat)
    ensures var r, b := a.row, Tick(a, rules, v, now);
            if !v.alive || v.fighting then b == a.(row := r.(seenAt := now))
            else
              && b.starts == a.starts + Starts(r, rules, v, now)
              && b.row.nextAfterTalk == (if Parts(r, rules, v, now) then now + rules.afterTalk.period else r.nextAfterTalk)
              && b.row.nextNear == (if Greets(r, rules, v, now) then now + rules.near.period else r.nextNear)
              && b.row.nextLoop == (if Works(r, rules, v, now) then now + rules.loop.period else r.nextLoop)
              && b.row.busyUntil == (if Works(r, rules, v, now) then now + Length(v, rules.loop.scriptId)
                                     else if Greets(r, rules, v, now) then now + Length(v, rules.near.scriptId)
                                     else if Parts(r, rules, v, now) then now + Length(v, rules.afterTalk.scriptId)
                                     else r.busyUntil)
              && b.row.talker == (if IsTalking(r, v, now) then r.talker else 0) && b.row.talkedAt == r.talkedAt
              && b.row.seenAt == now && b.row.emoteNext == r.emoteNext
  {
    if v.alive && !v.fighting {
      var b := a.(row := a.row.(seenAt := now));
      CustomLeaves(b, rules.custom, v);
      var c := CustomStep(b, rules.custom, v);
      var talking := Talking(c.row, v, now);
      TalkIs(c, rules, v, now);
      var d := TalkStep(c, rules.afterTalk, v, now);
      NearIs(c, d, rules, v, now);
      var e := NearStep(d, rules.near, v, talking, now);
      hide CustomStep, TalkStep, NearStep, Newcomer, Begun, Length;
      LoopIs(c, d, e, rules, v, now);
      InOrder(a.starts, c, rules, v, now);
      SameClocks(a.row, c.row, rules, v, now);
    }
  }

  /** The custom scene is apart: it touches no clock and starts no timeline. */
  lemma CustomLeaves(a: Live, custom: Rule, v: View)
    ensures var b := CustomStep(a, custom, v);
            b.starts == a.starts && b.row == a.row.(customGen := b.row.customGen, customScene := b.row.customScene)
  {
  }

  lemma SameClocks(r: Row, s: Row, rules: Rules, v: View, now: nat)
    requires s == r.(customGen := s.customGen, customScene := s.customScene, seenAt := s.seenAt)
    ensures Starts(r, rules, v, now) == Starts(s, rules, v, now)
    ensures Parts(r, rules, v, now) == Parts(s, rules, v, now) && Greets(r, rules, v, now) == Greets(s, rules, v, now)
    ensures Works(r, rules, v, now) == Works(s, rules, v, now) && IsTalking(r, v, now) == IsTalking(s, v, now)
  {
  }

  function First(r: Row, rules: Rules, v: View, now: nat): seq<Start>
  {
    if Parts(r, rules, v, now) then
      [Begun(AfterTalk, rules.afterTalk, if r.talker in v.inTalkRange then r.talker else 0, v, now)]
    else []
  }

  function Second(r: Row, rules: Rules, v: View, now: nat): seq<Start>
  {
    if Greets(r, rules, v, now) then [Begun(Near, rules.near, Newcomer(v.found, r.inside), v, now)] else []
  }

  function Third(r: Row, rules: Rules, v: View, now: nat): seq<Start>
  {
    if Works(r, rules, v, now) then [Begun(Loop, rules.loop, 0, v, now)] else []
  }

  lemma InOrder(starts: seq<Start>, a: Live, rules: Rules, v: View, now: nat)
    ensures starts + First(a.row, rules, v, now) + Second(a.row, rules, v, now) + Third(a.row, rules, v, now)
            == starts + Starts(a.row, rules, v, now)
  {
    hide Parts, Greets, Works, Newcomer, Begun;
  }

  lemma TalkIs(a: Live, rules: Rules, v: View, now: nat)
    ensures var r, parts, b := a.row, Parts(a.row, rules, v, now), TalkStep(a, rules.afterTalk, v, now);
            && Talking(r, v, now) == IsTalking(r, v, now)
            && b.starts == a.starts + First(r, rules, v, now)
            && b.row == r.(talker := if IsTalking(r, v, now) then r.talker else 0,
                           nextAfterTalk := if parts then now + rules.afterTalk.period else r.nextAfterTalk,
                           busyUntil := if parts then now + Length(v, rules.afterTalk.scriptId) else r.busyUntil)
  {
  }

  lemma NearIs(a: Live, b: Live, rules: Rules, v: View, now: nat)
    requires var r, parts := a.row, Parts(a.row, rules, v, now);
             b.row == r.(talker := if IsTalking(r, v, now) then r.talker else 0,
                         nextAfterTalk := if parts then now + rules.afterTalk.period else r.nextAfterTalk,
                         busyUntil := if parts then now + Length(v, rules.afterTalk.scriptId) else r.busyUntil)
    ensures var r, greets := a.row, Greets(a.row, rules, v, now);
            var c := NearStep(b, rules.near, v, IsTalking(r, v, now), now);
            && c.starts == b.starts + Second(r, rules, v, now)
            && c.row == b.row.(nextNear := if greets then now + rules.near.period else r.nextNear,
                               busyUntil := if greets then now + Length(v, rules.near.scriptId) else b.row.busyUntil,
                               inside := if On(rules.near) then Present(v.found) else {})
  {
    hide Present, Arrival;
  }

  lemma LoopIs(a: Live, b: Live, c: Live, rules: Rules, v: View, now: nat)
    requires var r, parts := a.row, Parts(a.row, rules, v, now);
             b.row.busyUntil == (if parts then now + Length(v, rules.afterTalk.scriptId) else r.busyUntil)
    requires var greets := Greets(a.row, rules, v, now);
             && c.row.busyUntil == (if greets then now + Length(v, rules.near.scriptId) else b.row.busyUntil)
             && c.row.nextLoop == a.row.nextLoop
    ensures var r, works := a.row, Works(a.row, rules, v, now);
            var d := LoopStep(c, rules.loop, v, IsTalking(r, v, now), now);
            && d.starts == c.starts + Third(r, rules, v, now)
            && d.row == c.row.(nextLoop := if works then now + rules.loop.period else r.nextLoop,
                               busyUntil := if works then now + Length(v, rules.loop.scriptId) else c.row.busyUntil)
  {
    hide Newcomer;
  }

  /** Those inside the radius afterwards are those found who count, if somebody is to be greeted at all. */
  lemma InsideIs(a: Live, rules: Rules, v: View, now: nat, g: Guid)
    requires v.alive && !v.fighting
    ensures g in Tick(a, rules, v, now).row.inside <==>
            On(rules.near) && exists i :: 0 <= i < |v.found| && v.found[i].guid == g
                                          && v.found[i].present && !v.found[i].companion && !v.found[i].hidden
  {
    var b := a.(row := a.row.(seenAt := now));
    CustomLeaves(b, rules.custom, v);
    var c := CustomStep(b, rules.custom, v);
    TalkIs(c, rules, v, now);
    var d := TalkStep(c, rules.afterTalk, v, now);
    NearIs(c, d, rules, v, now);
    hide CustomStep, TalkStep, NearStep, Newcomer, Begun, Length, Parts, Greets;
  }

  // ----- The custom scene -----

  /** It is started anew in a generation it was not started in, after stopping the one before, and stopped with its rule. */
  lemma SceneStarts(a: Live, rules: Rules, v: View, now: nat)
    requires v.alive && !v.fighting
    ensures var r, b := a.row, Tick(a, rules, v, now);
            var stop := if r.customScene != 0 then [Stop(r.customScene)] else [];
            if On(rules.custom) && r.customGen != v.generation then
              var loaded := rules.custom.sceneId in v.scenes;
              && b.calls == a.calls + stop + (if loaded then [Run(rules.custom.sceneId, v.generation)] else [])
              && b.row.customScene == (if loaded then rules.custom.sceneId else 0) && b.row.customGen == v.generation
            else if On(rules.custom) then
              b.calls == a.calls && b.row.customScene == r.customScene && b.row.customGen == r.customGen
            else
              && b.calls == a.calls + stop && b.row.customScene == 0
              && b.row.customGen == (if r.customScene != 0 then 0 else r.customGen)
  {
    var b := a.(row := a.row.(seenAt := now));
    var c := CustomStep(b, rules.custom, v);
    var talking := Talking(c.row, v, now);
    var d := TalkStep(c, rules.afterTalk, v, now);
    var e := NearStep(d, rules.near, v, talking, now);
    StepsOnScene(c, rules.afterTalk, v, talking, now);
    StepsOnScene(d, rules.near, v, talking, now);
    StepsOnScene(e, rules.loop, v, talking, now);
    SceneStep(b, rules.custom, v);
    hide CustomStep, TalkStep, NearStep, LoopStep, Talking;
  }

  lemma SceneStep(a: Live, custom: Rule, v: View)
    ensures var r, b := a.row, CustomStep(a, custom, v);
            var stop := if r.customScene != 0 then [Stop(r.customScene)] else [];
            if On(custom) && r.customGen != v.generation then
              var loaded := custom.sceneId in v.scenes;
              && b.calls == a.calls + stop + (if loaded then [Run(custom.sceneId, v.generation)] else [])
              && b.row.customScene == (if loaded then custom.sceneId else 0) && b.row.customGen == v.generation
            else if On(custom) then
              b.calls == a.calls && b.row.customScene == r.customScene && b.row.customGen == r.customGen
            else
              && b.calls == a.calls + stop && b.row.customScene == 0
              && b.row.customGen == (if r.customScene != 0 then 0 else r.customGen)
  {
  }

  // ----- Emotes -----

  /** The first rule for an emote. */
  predicate IsRule(rules: seq<EmoteRule>, id: nat, i: int)
  {
    0 <= i < |rules| && rules[i].emoteId == id && forall j :: 0 <= j < i ==> rules[j].emoteId != id
  }

  lemma {:induction false} RuleIs(rules: seq<EmoteRule>, id: nat, i: int)
    requires IsRule(rules, id, i)
    ensures RuleFor(rules, id) == Some(rules[i])
  {
    if i > 0 {
      assert IsRule(rules[1..], id, i - 1);
      RuleIs(rules[1..], id, i - 1);
    }
  }

  /** An emote from somebody who can be seen and is near, with a rule for it, is answered when its own clock and the NPC are free. */
  lemma EmoteStarts(n: Npc, e: Emoter, now: nat, i: int)
    requires e.rules.Some? && IsRule(e.rules.value, e.textEmote, i) && !e.companion && !e.hidden && e.inRange
    ensures var rule, m := e.rules.value[i], Next(n, Emoted(now, e));
            var r := if n.row.Some? then n.row.value else Row(0, 0, 0, 0, 0, 0, {}, 0, 0, 0, map[]);
            var length := if rule.scriptId in e.lengths then e.lengths[rule.scriptId] else 0;
            var next := if e.textEmote in r.emoteNext then r.emoteNext[e.textEmote] else 0;
            && m.calls == n.calls
            && if now >= r.busyUntil && now >= next then
                 && m.starts == n.starts + [Start(Emote(e.textEmote), rule.scriptId, e.guid, now, length, rule.period)]
                 && m.row == Some(r.(emoteNext := r.emoteNext[e.textEmote := now + rule.period], busyUntil := now + length,
                                     seenAt := now))
               else m.starts == n.starts && m.row == Some(r)
  {
    RuleIs(e.rules.value, e.textEmote, i);
  }

  /** Anybody else's leaves everything as it was. */
  lemma EmoteIsIgnored(n: Npc, e: Emoter, now: nat)
    requires e.companion || e.hidden || !e.inRange || e.rules.None?
             || forall i :: 0 <= i < |e.rules.value| ==> e.rules.value[i].emoteId != e.textEmote
    ensures Next(n, Emoted(now, e)) == n
  {
  }

  // ----- A conversation -----

  /** After a click the NPC is left alone for twenty seconds by somebody in range; then the parting line is for them. */
  lemma AfterAClick(n: Npc, who: Guid, clicked: nat, now: nat, v: View)
    requires n.row.Some? && who != 0 && clicked <= now < clicked + 4294967296
    requires v.idle.Some? && v.alive && !v.fighting && who in v.inTalkRange
    ensures var m := Next(Next(n, Clicked(clicked, who)), Passed(now, Some(v)));
            var r, rule := n.row.value, v.idle.value.afterTalk;
            && (now - clicked < 20 ==> m.starts == n.starts && m.row.Some? && m.row.value.talker == who)
            && (now - clicked >= 20 && On(rule) && now >= r.nextAfterTalk && now >= r.busyUntil ==>
                  && |m.starts| > |n.starts| && m.row.Some? && m.row.value.talker == 0
                  && m.starts[|n.starts|] == Begun(AfterTalk, rule, who, v, now))
  {
    var a := Live(n.row.value.(talker := who, talkedAt := clicked), n.starts, n.calls);
    Elapsed(clicked, now);
    TickStarts(a, v.idle.value, v, now);
    hide Tick, Newcomer, Greets, Works, Begun;
  }

  lemma Elapsed(clicked: nat, now: nat)
    requires clicked <= now < clicked + 4294967296
    ensures (now - clicked) % 4294967296 == now - clicked
  {
  }
}
