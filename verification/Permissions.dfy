/**
 What a member may do in a guild and in one of its channels. A permission word is the set of its bits: or is union, and-not
 is difference.
 */
module Permissions {
  import opened Wrappers

  type Id = nat
  type Bit = b: nat | b < 64
  type Bits = set<Bit>

  const ALL: Bits := set b: Bit | 0 <= b < 64
  const ADMINISTRATOR: Bit := 3

  datatype Overwrite = Overwrite(id: Id, forRole: bool, allow: Bits, deny: Bits)

  datatype Member = Member(user: Id, roles: seq<Id>)

  /** The guild's id is that of the role everyone has; the roles known are those in the cache. */
  datatype Guild = Guild(id: Id, owner: Id, roles: map<Id, Bits>, members: map<Id, Member>)

  // ----- Unions -----

  function Union(f: Id -> Bits, ids: seq<Id>): Bits
  {
    if ids == [] then {} else Union(f, ids[..|ids| - 1]) + f(ids[|ids| - 1])
  }

  lemma {:induction false} InUnion(f: Id -> Bits, ids: seq<Id>, b: Bit)
    ensures b in Union(f, ids) <==> exists id :: id in ids && b in f(id)
  {
    if ids != [] {
      var init, last := ids[..|ids| - 1], ids[|ids| - 1];
      InUnion(f, init, b);
      assert ids == init + [last];
      assert last in ids && forall id :: id in ids <==> id in init || id == last;
    }
  }

  lemma UnionOfSame(f: Id -> Bits, ids: seq<Id>, others: seq<Id>)
    requires forall id :: id in ids <==> id in others
    ensures Union(f, ids) == Union(f, others)
  {
    forall b: Bit
      ensures b in Union(f, ids) <==> b in Union(f, others)
    {
      InUnion(f, ids, b);
      InUnion(f, others, b);
    }
  }

  // ----- Permissions -----

  function RolePermissions(g: Guild): Id -> Bits
  {
    (id: Id) => if id in g.roles then g.roles[id] else {}
  }

  function Base(g: Guild, m: Member): Bits
  {
    if g.owner == m.user then ALL
    else if g.id !in g.roles then {}
    else
      var p := g.roles[g.id] + Union(RolePermissions(g), m.roles);
      if ADMINISTRATOR in p then ALL else p
  }

  function BaseOfUser(g: Guild, user: Option<Id>): Bits
  {
    if user.None? || user.value !in g.members then {} else Base(g, g.members[user.value])
  }

  /** The first overwrite for a role or a member. */
  function For(os: seq<Overwrite>, id: Id, forRole: bool): Option<Overwrite>
  {
    if os == [] then None else if os[0].id == id && os[0].forRole == forRole then Some(os[0]) else For(os[1..], id, forRole)
  }

  function Applied(p: Bits, deny: Bits, allow: Bits): Bits
  {
    p - deny + allow
  }

  function AppliedIfAny(p: Bits, o: Option<Overwrite>): Bits
  {
    if o.None? then p else Applied(p, o.value.deny, o.value.allow)
  }

  /** What a role of the member adds; the role everyone has was applied before. */
  function Allowing(g: Guild, os: seq<Overwrite>): Id -> Bits
  {
    (id: Id) => if id != g.id && For(os, id, true).Some? then For(os, id, true).value.allow else {}
  }

  function Denying(g: Guild, os: seq<Overwrite>): Id -> Bits
  {
    (id: Id) => if id != g.id && For(os, id, true).Some? then For(os, id, true).value.deny else {}
  }

  function Overwritten(g: Guild, base: Bits, m: Member, os: seq<Overwrite>): Bits
  {
    if ADMINISTRATOR in base then ALL
    else
      var p := AppliedIfAny(base, For(os, g.id, true));
      var q := Applied(p, Union(Denying(g, os), m.roles), Union(Allowing(g, os), m.roles));
      AppliedIfAny(q, For(os, m.user, false))
  }

  function OfUser(g: Guild, base: Bits, user: Option<Id>, channel: Option<seq<Overwrite>>): Bits
  {
    if user.None? || channel.None? then {}
    else if ADMINISTRATOR in base then ALL
    else if user.value !in g.members then {}
    else Overwritten(g, base, g.members[user.value], channel.value)
  }

  function OfMember(g: Guild, m: Member, channel: seq<Overwrite>): Bits
  {
    Overwritten(g, Base(g, m), m, channel)
  }

  /** The two ways of asking agree for every guild, roles and overwrites exactly if the member is cached or has nothing. */
  lemma BothWaysAgree(g: Guild, m: Member, channel: seq<Overwrite>)
    requires m.user in g.members ==> g.members[m.user] == m
    ensures OfUser(g, BaseOfUser(g, Some(m.user)), Some(m.user), Some(channel)) == OfMember(g, m, channel)
            <==> m.user in g.members || OfMember(g, m, channel) == {}
  {
  }

  /** In what order a member has their roles, and how often, does not matter. */
  lemma OrderDoesNotMatter(g: Guild, user: Id, roles: seq<Id>, others: seq<Id>, channel: seq<Overwrite>)
    requires forall id :: id in roles <==> id in others
    ensures Base(g, Member(user, roles)) == Base(g, Member(user, others))
    ensures OfMember(g, Member(user, roles), channel) == OfMember(g, Member(user, others), channel)
  {
    UnionOfSame(RolePermissions(g), roles, others);
    UnionOfSame(Denying(g, channel), roles, others);
    UnionOfSame(Allowing(g, channel), roles, others);
  }

  // ----- Bit by bit -----

  /** The overwrite that counts for a role or a member: the first of that kind with that id. */
  predicate Counts(os: seq<Overwrite>, i: int, id: Id, forRole: bool)
  {
    && 0 <= i < |os| && os[i].id == id && os[i].forRole == forRole
    && forall j :: 0 <= j < i ==> !(os[j].id == id && os[j].forRole == forRole)
  }

  /** It allows the bit, or it denies it. */
  ghost predicate Says(os: seq<Overwrite>, id: Id, forRole: bool, b: Bit, allows: bool)
  {
    exists i :: Speaks(os, i, id, forRole, b, allows)
  }

  predicate Speaks(os: seq<Overwrite>, i: int, id: Id, forRole: bool, b: Bit, allows: bool)
  {
    Counts(os, i, id, forRole) && b in if allows then os[i].allow else os[i].deny
  }

  /** One that speaks for the member through one of their roles, the one everyone has apart. */
  ghost predicate RoleSays(g: Guild, m: Member, os: seq<Overwrite>, b: Bit, allows: bool)
  {
    exists id :: id in m.roles && id != g.id && Says(os, id, true, b, allows)
  }

  /**
   Who has a permission: administrators have all. Else the member's own overwrite is asked first, then all of their roles',
   of which one that allows is enough, then that for everyone, and if none of them says anything the base decides.
   */
  ghost predicate Granted(g: Guild, base: Bits, m: Member, os: seq<Overwrite>, b: Bit)
  {
    if 3 in base then true
    else if Says(os, m.user, false, b, true) then true
    else if Says(os, m.user, false, b, false) then false
    else if RoleSays(g, m, os, b, true) then true
    else if RoleSays(g, m, os, b, false) then false
    else if Says(os, g.id, true, b, true) then true
    else if Says(os, g.id, true, b, false) then false
    else b in base
  }

  /** The bits come out as the order of precedence says, each on its own. */
  lemma BitsAreGranted(g: Guild, base: Bits, m: Member, os: seq<Overwrite>, b: Bit)
    ensures b in Overwritten(g, base, m, os) <==> Granted(g, base, m, os, b)
  {
    RolesSay(g, m, os, b);
    FoundSays(os, m.user, false, b);
    FoundSays(os, g.id, true, b);
    hide Union, RoleSays, For, Says;
  }

  lemma {:induction false} FoundIs(os: seq<Overwrite>, id: Id, forRole: bool)
    ensures For(os, id, forRole).None? ==> forall i :: 0 <= i < |os| ==> !(os[i].id == id && os[i].forRole == forRole)
    ensures For(os, id, forRole).Some? ==> exists i :: Counts(os, i, id, forRole) && For(os, id, forRole).value == os[i]
  {
    if os != [] {
      if os[0].id == id && os[0].forRole == forRole {
        assert Counts(os, 0, id, forRole);
      } else {
        FoundIs(os[1..], id, forRole);
        assert forall i :: 0 < i < |os| ==> os[i] == os[1..][i - 1];
        if For(os, id, forRole).Some? {
          var i :| Counts(os[1..], i, id, forRole) && For(os, id, forRole).value == os[1..][i];
          assert Counts(os, i + 1, id, forRole);
        }
      }
    }
  }

  lemma FoundSays(os: seq<Overwrite>, id: Id, forRole: bool, b: Bit)
    ensures var o := For(os, id, forRole);
            && (Says(os, id, forRole, b, true) <==> o.Some? && b in o.value.allow)
            && (Says(os, id, forRole, b, false) <==> o.Some? && b in o.value.deny)
  {
    FoundIs(os, id, forRole);
    var o := For(os, id, forRole);
    if o.Some? {
      var i :| Counts(os, i, id, forRole) && o.value == os[i];
      assert forall k :: Counts(os, k, id, forRole) ==> k == i;
      if b in o.value.allow { assert Speaks(os, i, id, forRole, b, true); }
      if b in o.value.deny { assert Speaks(os, i, id, forRole, b, false); }
    }
  }

  lemma RolesSay(g: Guild, m: Member, os: seq<Overwrite>, b: Bit)
    ensures b in Union(Allowing(g, os), m.roles) <==> RoleSays(g, m, os, b, true)
    ensures b in Union(Denying(g, os), m.roles) <==> RoleSays(g, m, os, b, false)
  {
    var allowing, denying := Allowing(g, os), Denying(g, os);
    InUnion(allowing, m.roles, b);
    InUnion(denying, m.roles, b);
    hide Union, For, Says;
    forall id: Id
      ensures b in allowing(id) <==> id != g.id && Says(os, id, true, b, true)
      ensures b in denying(id) <==> id != g.id && Says(os, id, true, b, false)
    {
      FoundSays(os, id, true, b);
    }
  }

  /** And the base: everything for an owner or an administrator, or what some role of theirs or everyone's gives. */
  lemma BaseIsGranted(g: Guild, m: Member, b: Bit)
    ensures b in Base(g, m) <==>
            || g.owner == m.user
            || (g.id in g.roles
                && (RoleGives(g, m, 3) || RoleGives(g, m, b)))
  {
    var f := RolePermissions(g);
    InUnion(f, m.roles, b);
    InUnion(f, m.roles, ADMINISTRATOR);
    hide Union;
    assert forall id: Id, c: Bit :: c in f(id) <==> id in g.roles && c in g.roles[id];
  }

  predicate RoleGives(g: Guild, m: Member, b: Bit)
    requires g.id in g.roles
  {
    b in g.roles[g.id] || exists id :: id in m.roles && id in g.roles && b in g.roles[id]
  }

  // ----- As computed -----

  method FindOverwrite(os: seq<Overwrite>, id: Id, forRole: bool) returns (o: Option<Overwrite>)
    ensures o == For(os, id, forRole)
  {
    for i := 0 to |os|
      invariant For(os, id, forRole) == For(os[i..], id, forRole)
    {
      if os[i].id == id && os[i].forRole == forRole {
        return Some(os[i]);
      }
      assert os[i..][1..] == os[i + 1..];
    }
    return None;
  }

  method BasePermissions(g: Guild, m: Member) returns (p: Bits)
    ensures p == Base(g, m)
  {
    if g.owner == m.user {
      return ALL;
    }
    if g.id !in g.roles {
      return {};
    }
    p := g.roles[g.id];
    for i := 0 to |m.roles|
      invariant p == g.roles[g.id] + Union(RolePermissions(g), m.roles[..i])
    {
      assert m.roles[..i + 1][..i] == m.roles[..i];
      if m.roles[i] in g.roles {
        p := p + g.roles[m.roles[i]];
      }
    }
    assert m.roles[..|m.roles|] == m.roles;
    if ADMINISTRATOR in p {
      return ALL;
    }
  }

  method PermissionOverwrites(g: Guild, base: Bits, user: Option<Id>, channel: Option<seq<Overwrite>>) returns (p: Bits)
    ensures p == OfUser(g, base, user, channel)
  {
    if user.None? || channel.None? {
      return {};
    }
    if ADMINISTRATOR in base {
      return ALL;
    }
    if user.value !in g.members {
      return {};
    }
    p := ApplyOverwrites(g, base, g.members[user.value], channel.value);
  }

  method MemberPermissionOverwrites(g: Guild, m: Member, channel: seq<Overwrite>) returns (p: Bits)
    ensures p == OfMember(g, m, channel)
  {
    var base := BasePermissions(g, m);
    if ADMINISTRATOR in base {
      return ALL;
    }
    p := ApplyOverwrites(g, base, m, channel);
  }

  method ApplyOverwrites(g: Guild, base: Bits, m: Member, os: seq<Overwrite>) returns (p: Bits)
    requires ADMINISTRATOR !in base
    ensures p == Overwritten(g, base, m, os)
  {
    p := base;
    var everyone := FindOverwrite(os, g.id, true);
    if everyone.Some? {
      p := p - everyone.value.deny;
      p := p + everyone.value.allow;
    }
    var allow, deny := RoleOverwrites(g, m.roles, os);
    p := p - deny;
    p := p + allow;
    var own := FindOverwrite(os, m.user, false);
    if own.Some? {
      p := p - own.value.deny;
      p := p + own.value.allow;
    }
  }

  method RoleOverwrites(g: Guild, roles: seq<Id>, os: seq<Overwrite>) returns (allow: Bits, deny: Bits)
    ensures allow == Union(Allowing(g, os), roles) && deny == Union(Denying(g, os), roles)
  {
    allow, deny := {}, {};
    for i := 0 to |roles|
      invariant allow == Union(Allowing(g, os), roles[..i]) && deny == Union(Denying(g, os), roles[..i])
    {
      assert roles[..i + 1][..i] == roles[..i];
      if roles[i] == g.id {
        continue;
      }
      var o := FindOverwrite(os, roles[i], true);
      if o.Some? {
        deny := deny + o.value.deny;
        allow := allow + o.value.allow;
      }
    }
    assert roles[..|roles|] == roles;
  }
}
