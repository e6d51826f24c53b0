/** One map's driver: its bot NPCs' rows, changed in place, and what the map and its scenes were told for each of them. */
module BotNpcIdleDriver {
  import opened Wrappers
  import opened BotNpcIdle

  /** A player the pass meets: only bot NPCs in the world whose design is known matter. */
  datatype Met = Met(guid: Guid, matters: bool, view: View)

  predicate MetOnce(players: seq<Met>)
  {
    forall i, j :: 0 <= i < j < |players| ==> players[i].guid != players[j].guid
  }

  /** What a pass over these players sees of one NPC. */
  function ViewOf(players: seq<Met>, g: Guid): Option<View>
  {
    if players == [] then None
    else
      var last := players[|players| - 1];
      if last.guid == g && last.matters then Some(last.view) else ViewOf(players[..|players| - 1], g)
  }

  lemma {:induction false} Unseen(players: seq<Met>, g: Guid)
    requires forall i :: 0 <= i < |players| ==> players[i].guid != g
    ensures ViewOf(players, g).None?
  {
    if players != [] {
      Unseen(players[..|players| - 1], g);
    }
  }

  /** Without the sweep: an NPC not met is left alone. */
  function Meet(n: Npc, view: Option<View>, now: nat): Npc
  {
    if view.Some? then See(n, view.value, now) else n
  }

  class Driver {
    var timer: nat
    var rows: map<Guid, Row>
    var starts: map<Guid, seq<Start>>
    var calls: map<Guid, seq<SceneCall>>

    constructor ()
      ensures timer == 0 && forall g :: NpcOf(g) == Npc(None, [], [])
    {
      timer, rows, starts, calls := 0, map[], map[], map[];
    }

    function NpcOf(g: Guid): Npc
      reads this
    {
      Npc(if g in rows then Some(rows[g]) else None,
          if g in starts then starts[g] else [],
          if g in calls then calls[g] else [])
    }

    twostate predicate OnlyFor(g: Guid)
      reads this
    {
      timer == old(timer) && forall h :: h != g ==> NpcOf(h) == old(NpcOf(h))
    }

    method NoteStart(g: Guid, s: Start)
      modifies this`starts
      ensures OnlyFor(g) && NpcOf(g) == old(NpcOf(g)).(starts := old(NpcOf(g)).starts + [s])
    {
      starts := starts[g := NpcOf(g).starts + [s]];
    }

    method NoteCall(g: Guid, c: SceneCall)
      modifies this`calls
      ensures OnlyFor(g) && NpcOf(g) == old(NpcOf(g)).(calls := old(NpcOf(g)).calls + [c])
    {
      calls := calls[g := NpcOf(g).calls + [c]];
    }

    /** Looking a row up by index makes one when there is none. */
    method Index(g: Guid)
      modifies this`rows
      ensures g in rows && NpcOf(g) == Stored(Indexed(old(NpcOf(g)))) && OnlyFor(g)
    {
      if g !in rows {
        rows := rows[g := FRESH];
      }
    }

    method Stamp(g: Guid, now: nat)
      requires g in rows
      modifies this`rows
      ensures NpcOf(g) == old(NpcOf(g)).(row := Some(old(rows[g]).(seenAt := now))) && OnlyFor(g) && g in rows
    {
      rows := rows[g := rows[g].(seenAt := now)];
    }

    method FireFor(g: Guid, k: Kind, scriptId: nat, period: nat, who: Guid, lengths: map<nat, nat>, now: nat)
      requires g in rows
      modifies this
      ensures NpcOf(g) == Stored(Fire(Indexed(old(NpcOf(g))), k, scriptId, period, who, lengths, now)) && OnlyFor(g)
    {
      var length := ScriptLength(lengths, scriptId);
      NoteStart(g, Start(k, scriptId, who, now, length, period));
      rows := rows[g := SetDue(rows[g], k, now + period)];
      rows := rows[g := rows[g].(busyUntil := now + length)];
    }

    method StartCustomFor(g: Guid, sceneId: nat, v: View)
      requires g in rows
      modifies this
      ensures NpcOf(g) == Stored(StartCustom(Indexed(old(NpcOf(g))), sceneId, v)) && OnlyFor(g)
    {
      if rows[g].customScene != 0 {
        NoteCall(g, Stop(rows[g].customScene));
      }
      if sceneId !in v.scenes {
        rows := rows[g := rows[g].(customGen := v.generation, customScene := 0)];
        return;
      }
      NoteCall(g, Run(sceneId, v.generation));
      rows := rows[g := rows[g].(customGen := v.generation, customScene := sceneId)];
    }

    method StopCustomFor(g: Guid)
      requires g in rows
      modifies this
      ensures NpcOf(g) == Stored(StopCustom(Indexed(old(NpcOf(g))))) && OnlyFor(g)
    {
      NoteCall(g, Stop(rows[g].customScene));
      rows := rows[g := rows[g].(customScene := 0, customGen := 0)];
    }

    method TalkFor(g: Guid, rule: Rule, v: View, now: nat) returns (talking: bool)
      requires g in rows
      modifies this
      ensures NpcOf(g) == Stored(TalkStep(Indexed(old(NpcOf(g))), rule, v, now)) && OnlyFor(g)
      ensures talking == Talking(old(rows[g]), v, now)
    {
      hide Fire;
      talking := false;
      var was := rows[g].talker;
      if was == NOBODY {
        return;
      }
      var stillHere := was in v.inTalkRange;
      if stillHere && (now - rows[g].talkedAt) % 0x1_0000_0000 < TALK_IDLE_SECONDS {
        talking := true;
      } else {
        rows := rows[g := rows[g].(talker := NOBODY)];
        if rule.Runs() && MayFire(rows[g], AfterTalk, now) {
          FireFor(g, AfterTalk, rule.scriptId, rule.period, if stillHere then was else NOBODY, v.lengths, now);
        }
      }
    }

    /** Who of those found is there to be greeted, and which of them comes first who was not inside before. */
    method LookAround(found: seq<Passerby>, before: set<Guid>) returns (inside: set<Guid>, arrived: Guid)
      ensures inside == Present(found) && arrived == Arrival(found, before)
    {
      inside, arrived := {}, NOBODY;
      for i := 0 to |found|
        invariant inside == Present(found[..i])
        invariant Arrival(found, before) == if arrived != NOBODY then arrived else Arrival(found[i..], before)
      {
        var p := found[i];
        PresentOn(found, i);
        assert found[i..][1..] == found[i + 1..];
        if p.Counts() {
          inside := inside + {p.guid};
          if arrived == NOBODY && p.guid !in before {
            arrived := p.guid;
          }
        }
      }
      assert found[..|found|] == found;
    }

    method NearFor(g: Guid, rule: Rule, v: View, talking: bool, now: nat)
      requires g in rows
      modifies this
      ensures NpcOf(g) == Stored(NearStep(Indexed(old(NpcOf(g))), rule, v, talking, now)) && OnlyFor(g)
    {
      hide Fire, Present, Arrival;
      if rule.Runs() {
        var inside, arrived := LookAround(v.found, rows[g].inside);
        rows := rows[g := rows[g].(inside := inside)];
        if arrived != NOBODY && !talking && MayFire(rows[g], Near, now) {
          FireFor(g, Near, rule.scriptId, rule.period, arrived, v.lengths, now);
        }
      } else if rows[g].inside != {} {
        rows := rows[g := rows[g].(inside := {})];
      }
    }

    method TickFor(g: Guid, rules: Rules, v: View, now: nat)
      requires g in rows
      modifies this
      ensures NpcOf(g) == Stored(Tick(Indexed(old(NpcOf(g))), rules, v, now)) && OnlyFor(g)
    {
      hide Fire, StartCustom, StopCustom, TalkStep, NearStep, MayFire;
      Stamp(g, now);
      if !v.alive || v.fighting {
        return;
      }
      if rules.custom.Runs() {
        if rows[g].customGen != v.generation {
          StartCustomFor(g, rules.custom.sceneId, v);
        }
      } else if rows[g].customScene != 0 {
        StopCustomFor(g);
      }
      var talking := TalkFor(g, rules.afterTalk, v, now);
      NearFor(g, rules.near, v, talking, now);
      if rules.loop.Runs() && !talking && MayFire(rows[g], Loop, now) {
        FireFor(g, Loop, rules.loop.scriptId, rules.loop.period, NOBODY, v.lengths, now);
      }
    }

    method SeeFor(g: Guid, v: View, now: nat)
      modifies this
      ensures NpcOf(g) == See(old(NpcOf(g)), v, now) && OnlyFor(g)
    {
      hide Tick;
      if v.idle.Some? {
        Index(g);
        TickFor(g, v.idle.value, v, now);
      } else if v.emotes && g in rows {
        Stamp(g, now);
      }
    }

    /** One pass, once a second: every NPC is seen, then every row not stamped in this pass goes, with its scene. */
    method Update(diff: nat, anyRules: bool, players: seq<Met>, now: nat)
      requires MetOnce(players)
      modifies this
      ensures old(timer) > diff ==> timer == old(timer) - diff && forall g :: NpcOf(g) == old(NpcOf(g))
      ensures old(timer) <= diff ==> timer == 1000
      ensures old(timer) <= diff ==>
                forall g :: NpcOf(g) == Next(old(NpcOf(g)), if anyRules then Passed(now, ViewOf(players, g)) else Forgotten)
    {
      hide See, Sweep;
      if timer > diff {
        timer := timer - diff;
        return;
      }
      timer := 1000;
      if !anyRules {
        rows := map[];
        return;
      }
      MeetAll(players, now);
      SweepAll(now);
    }

    method MeetAll(players: seq<Met>, now: nat)
      requires MetOnce(players)
      modifies this
      ensures timer == old(timer)
      ensures forall g :: NpcOf(g) == Meet(old(NpcOf(g)), ViewOf(players, g), now)
    {
      hide See;
      for i := 0 to |players|
        invariant timer == old(timer)
        invariant forall g :: NpcOf(g) == Meet(old(NpcOf(g)), ViewOf(players[..i], g), now)
      {
        assert players[..i + 1][..i] == players[..i];
        var p := players[i];
        Unseen(players[..i], p.guid);
        if p.matters {
          SeeFor(p.guid, p.view, now);
        }
      }
      assert players[..|players|] == players;
    }

    method SweepAll(now: nat)
      modifies this
      ensures timer == old(timer)
      ensures forall g :: NpcOf(g) == Sweep(old(NpcOf(g)), now)
    {
      var left := rows.Keys;
      while left != {}
        invariant timer == old(timer) && left <= rows.Keys <= old(rows.Keys)
        invariant forall g :: NpcOf(g) == if g in left then old(NpcOf(g)) else Sweep(old(NpcOf(g)), now)
        decreases left
      {
        var g :| g in left;
        SweepFor(g, now);
        left := left - {g};
      }
    }

    method SweepFor(g: Guid, now: nat)
      requires g in rows
      modifies this
      ensures NpcOf(g) == Sweep(old(NpcOf(g)), now) && OnlyFor(g)
      ensures old(rows.Keys) - {g} <= rows.Keys <= old(rows.Keys)
    {
      if rows[g].seenAt == now {
        return;
      }
      if rows[g].customScene != 0 {
        NoteCall(g, Stop(rows[g].customScene));
      }
      rows := rows - {g};
    }

    method NoteTalkOf(npc: Guid, player: Guid, now: nat)
      modifies this
      ensures NpcOf(npc) == Next(old(NpcOf(npc)), Clicked(now, player)) && OnlyFor(npc)
    {
      if npc in rows {
        rows := rows[npc := rows[npc].(talker := player, talkedAt := now)];
      }
    }

    method FindRule(rules: seq<EmoteRule>, id: nat) returns (r: Option<EmoteRule>)
      ensures r == RuleFor(rules, id)
    {
      for i := 0 to |rules|
        invariant RuleFor(rules, id) == RuleFor(rules[i..], id)
      {
        if rules[i].emoteId == id {
          return Some(rules[i]);
        }
        assert rules[i..][1..] == rules[i + 1..];
      }
      return None;
    }

    method ReceiveEmoteAt(g: Guid, e: Emoter, now: nat)
      modifies this
      ensures NpcOf(g) == Next(old(NpcOf(g)), Emoted(now, e))
      ensures OnlyFor(g)
    {
      hide RuleFor, Fire, MayFire;
      if e.rules.None? {
        return;
      }
      var rule := FindRule(e.rules.value, e.textEmote);
      if rule.None? || e.companion || e.hidden || !e.inRange {
        return;
      }
      Index(g);
      if MayFire(rows[g], Emote(e.textEmote), now) {
        FireFor(g, Emote(e.textEmote), rule.value.scriptId, rule.value.period, e.guid, e.lengths, now);
        Stamp(g, now);
      }
    }
  }

  lemma PresentOn(found: seq<Passerby>, i: nat)
    requires i < |found|
    ensures Present(found[..i + 1]) == Present(found[..i]) + if found[i].Counts() then {found[i].guid} else {}
  {
    assert forall j :: 0 <= j < i ==> found[..i + 1][j] == found[..i][j];
  }
}
