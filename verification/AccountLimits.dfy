/** Two limits over a sliding window: the instances an account enters, and the accounts it mails for the first time. */
module AccountLimits {
  import opened Wrappers

  type Id = nat
  type Times = map<Id, nat>

  const HOUR := 3600

  // ----- Instances -----

  predicate IsOver(t: Times, id: Id, now: nat)
    requires id in t
  {
    t[id] + HOUR < now
  }

  /** The entries that count no more. */
  function Over(t: Times, now: nat): set<Id>
  {
    set id | id in t && IsOver(t, id, now)
  }

  lemma {:induction false} LeastExists(s: set<Id>)
    requires s != {}
    ensures exists m :: m in s && forall x :: x in s ==> m <= x
  {
    var k :| k in s;
    var rest := s - {k};
    if rest != {} {
      LeastExists(rest);
      var m :| m in rest && forall x :: x in rest ==> m <= x;
      IsLeast(s, k, m);
    } else {
      assert forall x :: x in s ==> x in rest || x == k;
      assert k in s && forall x :: x in s ==> k <= x;
    }
  }

  lemma IsLeast(s: set<Id>, k: Id, m: Id)
    requires k in s && m in s - {k} && forall x :: x in s - {k} ==> m <= x
    ensures var least := if m < k then m else k; least in s && forall x :: x in s ==> least <= x
  {
    assert forall x :: x in s ==> x in s - {k} || x == k;
  }

  ghost function Least(s: set<Id>): (m: Id)
    requires s != {}
    ensures m in s && forall x :: x in s ==> m <= x
  {
    LeastExists(s);
    var m :| m in s && forall x :: x in s ==> m <= x;
    m
  }

  /** Whether an account may enter, and its times then: a full list makes room by losing its first entry that is over. */
  ghost function Check(times: Option<Times>, id: Id, most: nat, now: nat): (bool, Option<Times>)
  {
    if times.None? then (true, times)
    else
      var t := times.value;
      if id in t || |t| < most then (true, times)
      else if Over(t, now) != {} then (true, Some(t - {Least(Over(t, now))}))
      else (false, times)
  }

  function Add(times: Option<Times>, id: Id, now: nat): Option<Times>
  {
    Some((if times.Some? then times.value else map[])[id := now])
  }

  /** Refused is a new instance exactly when the list is full and every entry on it was used within the hour. */
  lemma RefusedIff(times: Option<Times>, id: Id, most: nat, now: nat)
    ensures !Check(times, id, most, now).0 <==>
            times.Some? && id !in times.value && |times.value| >= most
            && forall k :: k in times.value ==> now <= times.value[k] + 3600
    ensures !Check(times, id, most, now).0 ==> Check(times, id, most, now).1 == times
  {
    if times.Some? {
      var t := times.value;
      if forall k :: k in t ==> now <= t[k] + HOUR {
        assert Over(t, now) == {};
      } else {
        var k :| k in t && !(now <= t[k] + HOUR);
        assert k in Over(t, now);
      }
    }
  }

  /** What a check leaves: of the entries over an hour old the one with the lowest number makes room, and no other. */
  lemma CheckLeaves(times: Option<Times>, id: Id, most: nat, now: nat, k: Id)
    ensures times.None? || id in times.value || |times.value| < most ==> Check(times, id, most, now) == (true, times)
    ensures times.Some? && id !in times.value && |times.value| >= most
            && k in times.value && times.value[k] + 3600 < now
            && (forall j :: j in times.value && times.value[j] + 3600 < now ==> k <= j) ==>
              Check(times, id, most, now) == (true, Some(map j | j in times.value && j != k :: times.value[j]))
  {
    if times.Some? && id !in times.value && |times.value| >= most && k in times.value && times.value[k] + 3600 < now
       && forall j :: j in times.value && times.value[j] + 3600 < now ==> k <= j {
      var over := Over(times.value, now);
      assert k in over;
      assert Least(over) == k;
      assert times.value - {k} == map j | j in times.value && j != k :: times.value[j];
    }
  }

  datatype Entry = Entry(id: Id, at: nat)

  /** An account: its times, its entries so far and the time of the last check. */
  datatype Account = Account(times: Option<Times>, entries: seq<Entry>, clock: nat)

  /** What is checked for an instance that the account is not yet bound to: its number is not known before the entry. */
  const UNBOUND: Id := 0

  /** A check, and if it lets the account in and it goes in, the entry some time later. */
  datatype Visit = Visit(id: Id, bound: bool, checked: nat, entered: Option<nat>) {
    function CheckedAs(): Id
    {
      if bound then id else UNBOUND
    }
  }

  predicate InOrder(a: Account, v: Visit)
  {
    v.id != UNBOUND && a.clock <= v.checked && (v.entered.Some? ==> v.checked <= v.entered.value)
  }

  ghost function Visited(a: Account, v: Visit, most: nat): Account
  {
    var (allowed, times) := Check(a.times, v.CheckedAs(), most, v.checked);
    if allowed && v.entered.Some? then
      Account(Add(times, v.id, v.entered.value), a.entries + [Entry(v.id, v.entered.value)], v.entered.value)
    else Account(times, a.entries, v.checked)
  }

  /** An instance the account is not bound to is let in or not as number 0, and one it is bound to as itself. */
  lemma CheckedIs(a: Account, v: Visit, most: nat)
    requires a.times.Some? && |a.times.value| >= most && forall k :: k in a.times.value ==> v.checked <= a.times.value[k] + 3600
    ensures v.entered.Some? ==>
              (Visited(a, v, most).entries == a.entries <==> (if v.bound then v.id else 0) !in a.times.value)
  {
    RefusedIff(a.times, v.CheckedAs(), most, v.checked);
    hide Check;
    if v.entered.Some? { assert |a.entries + [Entry(v.id, v.entered.value)]| == |a.entries| + 1; }
  }

  function Bound(most: nat): nat
  {
    if most == 0 then 1 else most
  }

  /** The instances entered in the hour that begins here. */
  function Window(entries: seq<Entry>, from: int): set<Id>
  {
    set i | 0 <= i < |entries| && from <= entries[i].at <= from + HOUR :: entries[i].id
  }

  /** An entry is remembered, with a time no earlier, or more than an hour old. */
  predicate Remembered(e: Entry, times: Option<Times>, clock: nat)
  {
    e.at <= clock && (e.at + HOUR < clock || (times.Some? && e.id in times.value && e.at <= times.value[e.id]))
  }

  ghost predicate Limited(a: Account, most: nat)
  {
    && (a.times.Some? ==> |a.times.value| <= Bound(most) && UNBOUND !in a.times.value)
    && (forall i :: 0 <= i < |a.entries| ==> Remembered(a.entries[i], a.times, a.clock))
    && forall from: int :: |Window(a.entries, from)| <= Bound(most)
  }

  lemma {:induction false} SubsetSize(a: set<Id>, b: set<Id>)
    requires a <= b
    ensures |a| <= |b|
  {
    if a != {} {
      var k :| k in a;
      SubsetSize(a - {k}, b - {k});
    }
  }

  lemma CheckKeeps(a: Account, id: Id, most: nat, now: nat)
    requires Limited(a, most) && a.clock <= now
    ensures var (allowed, times) := Check(a.times, id, most, now);
            && (times.Some? ==> |times.value| <= Bound(most) && UNBOUND !in times.value)
            && (allowed && times.Some? && id !in times.value ==> |times.value| < Bound(most))
            && forall i :: 0 <= i < |a.entries| ==> Remembered(a.entries[i], times, now)
  {
    var (allowed, times) := Check(a.times, id, most, now);
    if a.times.Some? && times != a.times {
      var t, u := a.times.value, times.value;
      var k := Least(Over(t, now));
      assert u.Keys == t.Keys - {k};
      assert |u| == |u.Keys| && |t| == |t.Keys|;
      forall i | 0 <= i < |a.entries|
        ensures Remembered(a.entries[i], times, now)
      {
        assert Remembered(a.entries[i], a.times, a.clock);
      }
    } else {
      forall i | 0 <= i < |a.entries|
        ensures Remembered(a.entries[i], times, now)
      {
        assert Remembered(a.entries[i], a.times, a.clock);
      }
    }
  }

  lemma WindowGrows(entries: seq<Entry>, e: Entry, from: int)
    ensures Window(entries + [e], from)
            == Window(entries, from) + if from <= e.at <= from + HOUR then {e.id} else {}
  {
    var all := entries + [e];
    forall id
      ensures id in Window(all, from) <==> id in Window(entries, from) + if from <= e.at <= from + HOUR then {e.id} else {}
    {
      if id in Window(entries, from) {
        var i :| 0 <= i < |entries| && from <= entries[i].at <= from + HOUR && entries[i].id == id;
        assert all[i] == entries[i];
      }
      if from <= e.at <= from + HOUR && id == e.id {
        assert all[|entries|] == e;
      }
    }
  }

  /** An hour that the new entry falls into ends no later than an hour after it began: all its instances are remembered. */
  lemma WindowIsRemembered(entries: seq<Entry>, times: Times, clock: nat, from: int)
    requires forall i :: 0 <= i < |entries| ==> Remembered(entries[i], Some(times), clock)
    requires from <= clock <= from + HOUR
    ensures Window(entries, from) <= times.Keys
  {
    forall i | 0 <= i < |entries| && from <= entries[i].at <= from + HOUR
      ensures entries[i].id in times.Keys
    {
      assert Remembered(entries[i], Some(times), clock);
    }
  }

  lemma AddKeeps(times: Option<Times>, entries: seq<Entry>, id: Id, now: nat, at: nat, most: nat)
    requires now <= at
    requires id != UNBOUND && (times.Some? ==> |times.value| <= Bound(most) && UNBOUND !in times.value)
    requires times.Some? && id !in times.value ==> |times.value| < Bound(most)
    requires forall i :: 0 <= i < |entries| ==> Remembered(entries[i], times, now)
    ensures var t := Add(times, id, at).value;
            && |t| <= Bound(most) && UNBOUND !in t
            && forall i :: 0 <= i < |entries| + 1 ==> Remembered((entries + [Entry(id, at)])[i], Some(t), at)
  {
    var t := Add(times, id, at).value;
    var was := if times.Some? then times.value else map[];
    assert t.Keys == was.Keys + {id};
    assert |t| == |t.Keys| && |was| == |was.Keys|;
    forall i | 0 <= i < |entries| + 1
      ensures Remembered((entries + [Entry(id, at)])[i], Some(t), at)
    {
      if i < |entries| {
        assert Remembered(entries[i], times, now);
      }
    }
  }

  /** A visit keeps the limit in every hour, whenever it begins. */
  lemma VisitKeeps(a: Account, v: Visit, most: nat)
    requires Limited(a, most) && InOrder(a, v)
    ensures Limited(Visited(a, v, most), most)
  {
    var b := Visited(a, v, most);
    CheckKeeps(a, v.CheckedAs(), most, v.checked);
    var (allowed, times) := Check(a.times, v.CheckedAs(), most, v.checked);
    if allowed && v.entered.Some? {
      var at := v.entered.value;
      AddKeeps(times, a.entries, v.id, v.checked, at, most);
      hide Check, Add;
      forall from: int
        ensures |Window(b.entries, from)| <= Bound(most)
      {
        WindowGrows(a.entries, Entry(v.id, at), from);
        if from <= at <= from + HOUR {
          WindowIsRemembered(b.entries, b.times.value, at, from);
          SubsetSize(Window(b.entries, from), b.times.value.Keys);
        } else {
          assert |Window(a.entries, from)| <= Bound(most);
        }
      }
    }
  }

  ghost function AfterVisits(a: Account, visits: seq<Visit>, most: nat): Account
    decreases |visits|
  {
    if visits == [] then a else AfterVisits(Visited(a, visits[0], most), visits[1..], most)
  }

  ghost predicate AllInOrder(a: Account, visits: seq<Visit>, most: nat)
    decreases |visits|
  {
    visits == [] || (InOrder(a, visits[0]) && AllInOrder(Visited(a, visits[0], most), visits[1..], most))
  }

  const NEWCOMER: Account := Account(None, [], 0)

  lemma {:induction false} VisitsKeep(a: Account, visits: seq<Visit>, most: nat)
    requires Limited(a, most) && AllInOrder(a, visits, most)
    ensures Limited(AfterVisits(a, visits, most), most)
    decreases |visits|
  {
    hide Limited, Visited, InOrder;
    if visits != [] {
      VisitKeeps(a, visits[0], most);
      VisitsKeep(Visited(a, visits[0], most), visits[1..], most);
    }
  }

  /** No account enters more different instances in any 3600 seconds than the limit says. */
  lemma NoMoreInAnyHour(visits: seq<Visit>, most: nat, from: int)
    requires most >= 1 && AllInOrder(NEWCOMER, visits, most)
    ensures var entries := AfterVisits(NEWCOMER, visits, most).entries;
            |set i | 0 <= i < |entries| && from <= entries[i].at <= from + 3600 :: entries[i].id| <= most
  {
    var entries := AfterVisits(NEWCOMER, visits, most).entries;
    assert Window(entries, from) == set i | 0 <= i < |entries| && from <= entries[i].at <= from + 3600 :: entries[i].id;
    forall start: int
      ensures |Window([], start)| <= Bound(most)
    {
      assert Window([], start) == {};
    }
    VisitsKeep(NEWCOMER, visits, most);
  }

  /** A limit of nothing still lets the first instance in: an account without a list is never refused. */
  lemma ZeroLetsOneIn(id: Id, at: nat)
    ensures var end := AfterVisits(NEWCOMER, [Visit(id, false, at, Some(at))], 0); |Window(end.entries, at)| == 1
  {
    var v := Visit(id, false, at, Some(at));
    assert [v][1..] == [];
    assert AfterVisits(Visited(NEWCOMER, v, 0), [], 0) == Visited(NEWCOMER, v, 0);
    WindowGrows([], Entry(id, at), at);
    assert [] + [Entry(id, at)] == [Entry(id, at)];
    assert Window([], at) == {};
  }

  // ----- Mail -----

  /** Those mailed since the expiry, counting now. */
  function Recent(sent: Times, since: int): set<Id>
  {
    set k | k in sent && sent[k] >= since
  }

  predicate CanMail(sent: Times, to: Id, expiry: nat, most: nat, now: nat)
  {
    to in sent || |Recent(sent, now - expiry)| < most
  }

  /** Somebody mailed before may always be mailed; anybody else while fewer than so many were mailed since the expiry. */
  lemma MayBeMailed(sent: Times, to: Id, expiry: nat, most: nat, now: nat)
    ensures to in sent ==> CanMail(sent, to, expiry, most, now)
    ensures to !in sent ==>
              (CanMail(sent, to, expiry, most, now) <==> |set k | k in sent && now <= sent[k] + expiry| < most)
  {
    assert (set k | k in sent && now <= sent[k] + expiry) == Recent(sent, now - expiry);
  }

  /** An account's mail: when it last mailed whom, and whom it mailed for the first time when. */
  datatype Mailer = Mailer(sent: Times, firsts: seq<Entry>, clock: nat)

  function Mailed(m: Mailer, to: Id, expiry: nat, most: nat, now: nat): Mailer
  {
    if !CanMail(m.sent, to, expiry, most, now) then m.(clock := now)
    else Mailer(m.sent[to := now], if to in m.sent then m.firsts else m.firsts + [Entry(to, now)], now)
  }

  /** The accounts mailed for the first time in the window that begins here. */
  function FirstsIn(firsts: seq<Entry>, from: int, expiry: nat): set<Id>
  {
    set i | 0 <= i < |firsts| && from <= firsts[i].at <= from + expiry :: firsts[i].id
  }

  ghost predicate MailLimited(m: Mailer, expiry: nat, most: nat)
  {
    && (forall i :: 0 <= i < |m.firsts| ==>
          m.firsts[i].id in m.sent && m.firsts[i].at <= m.sent[m.firsts[i].id] && m.firsts[i].at <= m.clock)
    && forall from: int :: |FirstsIn(m.firsts, from, expiry)| <= most
  }

  lemma FirstsGrow(firsts: seq<Entry>, e: Entry, from: int, expiry: nat)
    ensures FirstsIn(firsts + [e], from, expiry)
            == FirstsIn(firsts, from, expiry) + if from <= e.at <= from + expiry then {e.id} else {}
  {
    var all := firsts + [e];
    forall id
      ensures id in FirstsIn(all, from, expiry)
              <==> id in FirstsIn(firsts, from, expiry) + if from <= e.at <= from + expiry then {e.id} else {}
    {
      if id in FirstsIn(firsts, from, expiry) {
        var i :| 0 <= i < |firsts| && from <= firsts[i].at <= from + expiry && firsts[i].id == id;
        assert all[i] == firsts[i];
      }
      if from <= e.at <= from + expiry && id == e.id {
        assert all[|firsts|] == e;
      }
    }
  }

  lemma FirstsAreRecent(m: Mailer, from: int, expiry: nat, now: nat)
    requires forall i :: 0 <= i < |m.firsts| ==>
               m.firsts[i].id in m.sent && m.firsts[i].at <= m.sent[m.firsts[i].id] && m.firsts[i].at <= m.clock
    requires from <= now <= from + expiry
    ensures FirstsIn(m.firsts, from, expiry) <= Recent(m.sent, now - expiry)
  {
  }

  /** A mail keeps the limit in every window, although those mailed before are not checked. */
  lemma MailKeeps(m: Mailer, to: Id, expiry: nat, most: nat, now: nat)
    requires MailLimited(m, expiry, most) && m.clock <= now
    ensures MailLimited(Mailed(m, to, expiry, most, now), expiry, most)
  {
    var n := Mailed(m, to, expiry, most, now);
    if CanMail(m.sent, to, expiry, most, now) && to !in m.sent {
      var e := Entry(to, now);
      var recent := Recent(m.sent, now - expiry);
      forall from: int
        ensures |FirstsIn(n.firsts, from, expiry)| <= most
      {
        FirstsGrow(m.firsts, e, from, expiry);
        if from <= now <= from + expiry {
          FirstsAreRecent(m, from, expiry, now);
          SubsetSize(FirstsIn(m.firsts, from, expiry), recent);
        } else {
          assert |FirstsIn(m.firsts, from, expiry)| <= most;
        }
      }
    }
  }

  datatype Mail = Mail(to: Id, at: nat)

  function AfterMails(m: Mailer, mails: seq<Mail>, expiry: nat, most: nat): Mailer
    decreases |mails|
  {
    if mails == [] then m else AfterMails(Mailed(m, mails[0].to, expiry, most, mails[0].at), mails[1..], expiry, most)
  }

  lemma {:induction false} MailsKeep(m: Mailer, mails: seq<Mail>, expiry: nat, most: nat)
    requires MailLimited(m, expiry, most) && (mails != [] ==> m.clock <= mails[0].at)
    requires forall i, j :: 0 <= i < j < |mails| ==> mails[i].at <= mails[j].at
    ensures MailLimited(AfterMails(m, mails, expiry, most), expiry, most)
    decreases |mails|
  {
    hide MailLimited, CanMail;
    if mails != [] {
      MailKeeps(m, mails[0].to, expiry, most, mails[0].at);
      MailsKeep(Mailed(m, mails[0].to, expiry, most, mails[0].at), mails[1..], expiry, most);
    }
  }

  /** No account mails more accounts for the first time in any window than the limit says, zero included. */
  lemma NoMoreFirstsInAnyWindow(mails: seq<Mail>, expiry: nat, most: nat, from: int)
    requires forall i, j :: 0 <= i < j < |mails| ==> mails[i].at <= mails[j].at
    ensures |FirstsIn(AfterMails(Mailer(map[], [], 0), mails, expiry, most).firsts, from, expiry)| <= most
  {
    forall start: int
      ensures |FirstsIn([], start, expiry)| <= most
    {
      assert FirstsIn([], start, expiry) == {};
    }
    MailsKeep(Mailer(map[], [], 0), mails, expiry, most);
  }

  // ----- In place -----

  class AccountMgr {
    var enterTimes: map<Id, Times>

    constructor ()
      ensures enterTimes == map[]
    {
      enterTimes := map[];
    }

    function TimesOf(account: Id): Option<Times>
      reads this
    {
      if account in enterTimes then Some(enterTimes[account]) else None
    }

    twostate predicate OnlyFor(account: Id)
      reads this
    {
      forall a :: a != account ==> TimesOf(a) == old(TimesOf(a))
    }

    method CheckInstanceCount(account: Id, instance: Id, maxCount: nat, now: nat) returns (allowed: bool)
      modifies this
      ensures (allowed, TimesOf(account)) == Check(old(TimesOf(account)), instance, maxCount, now) && OnlyFor(account)
    {
      if account !in enterTimes {
        return true;
      }
      var times := enterTimes[account];
      if instance in times {
        return true;
      }
      if |times| < maxCount {
        return true;
      }
      var left := times.Keys;
      while left != {}
        invariant left <= times.Keys && enterTimes == old(enterTimes)
        invariant Over(times, now) <= left
        decreases left
      {
        LeastExists(left);
        var id: Id :| id in left && forall x :: x in left ==> id <= x;
        if IsOver(times, id, now) {
          assert id in Over(times, now);
          enterTimes := enterTimes[account := times - {id}];
          return true;
        }
        left := left - {id};
      }
      return false;
    }

    method AddInstanceEnterTime(account: Id, instance: Id, at: nat)
      modifies this
      ensures TimesOf(account) == Add(old(TimesOf(account)), instance, at) && OnlyFor(account)
    {
      if account !in enterTimes {
        enterTimes := enterTimes[account := map[instance := at]];
        return;
      }
      var times: Times := enterTimes[account];
      times := times[instance := at];
      enterTimes := enterTimes[account := times];
    }

    /** One visit: the check before the teleport, and the entry into the map if there is one. */
    method VisitFor(account: Id, v: Visit, maxCount: nat) returns (allowed: bool)
      modifies this
      ensures OnlyFor(account)
      ensures allowed == Check(old(TimesOf(account)), v.CheckedAs(), maxCount, v.checked).0
      ensures forall a: Account | a.times == old(TimesOf(account)) ::
                var b := Visited(a, v, maxCount);
                && TimesOf(account) == b.times
                && b.entries == a.entries + if allowed && v.entered.Some? then [Entry(v.id, v.entered.value)] else []
    {
      allowed := CheckInstanceCount(account, v.CheckedAs(), maxCount, v.checked);
      if allowed && v.entered.Some? {
        AddInstanceEnterTime(account, v.id, v.entered.value);
      }
    }
  }

  class AccountPersistentData {
    var sent: Times

    constructor ()
      ensures sent == map[]
    {
      sent := map[];
    }

    method JustMailed(to: Id, now: nat)
      modifies this
      ensures sent == old(sent)[to := now]
    {
      sent := sent[to := now];
    }

    method MayMail(to: Id, expiry: nat, most: nat, now: nat) returns (allowed: bool)
      ensures allowed == CanMail(sent, to, expiry, most, now)
    {
      if to in sent {
        return true;
      }
      var total := 0;
      var left := sent.Keys;
      var since := now - expiry;
      ghost var counted: set<Id> := {};
      while left != {}
        invariant left <= sent.Keys && counted !! left && counted <= Recent(sent, since)
        invariant total == |counted| && Recent(sent, since) <= counted + left
        decreases left
      {
        var k :| k in left;
        left := left - {k};
        if sent[k] >= since {
          total := total + 1;
          counted := counted + {k};
        }
      }
      assert counted == Recent(sent, since);
      return total < most;
    }

    /** The last steps before a mail goes out: it is recorded exactly if it may be sent. */
    method SendMail(to: Id, expiry: nat, most: nat, now: nat) returns (mailed: bool)
      modifies this
      ensures mailed == CanMail(old(sent), to, expiry, most, now)
      ensures forall m: Mailer | m.sent == old(sent) ::
                var n := Mailed(m, to, expiry, most, now);
                sent == n.sent && n.firsts == m.firsts + if mailed && to !in m.sent then [Entry(to, now)] else []
    {
      mailed := MayMail(to, expiry, most, now);
      if mailed {
        JustMailed(to, now);
      }
    }
  }
}
