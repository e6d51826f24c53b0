/** The barbershop manager: sessions of all players, the count the per-tick check reads, and the messages' text. */
module BarbershopMgr {
  import opened Wrappers
  import opened Bytes
  import opened BarbershopRules
  import opened Barbershop
  import opened Semicolons

  // ----- Message text -----

  method SplitFields(text: string) returns (fields: seq<string>)
    ensures fields == Split(text)
  {
    fields := [];
    var rest := text;
    while ';' in rest
      invariant fields + Split(rest) == Split(text)
      decreases |rest|
    {
      var at := IndexOf(rest, ';');
      Associative(fields, [rest[..at]], Split(rest[at + 1..]));
      fields, rest := fields + [rest[..at]], rest[at + 1..];
    }
    fields := fields + [rest];
  }

  function Digits(s: string): string
  {
    if s != [] && '0' <= s[0] <= '9' then [s[0]] + Digits(s[1..]) else []
  }

  function Number(s: string): nat
  {
    if s == [] then 0 else
      var c := s[|s| - 1];
      Number(s[..|s| - 1]) * 10 + if '0' <= c <= '9' then c as int - '0' as int else 0
  }

  predicate IsSpace(c: char)
  {
    c == ' ' || '\t' <= c <= '\r'
  }

  function SkipSpace(s: string): string
  {
    if s != [] && IsSpace(s[0]) then SkipSpace(s[1..]) else s
  }

  /** The number at the front of a text, without a limit on its size. */
  function Atoi(text: string): int
  {
    var s := SkipSpace(text);
    if s != [] && s[0] == '-' then -(Number(Digits(s[1..])) as int)
    else if s != [] && s[0] == '+' then Number(Digits(s[1..]))
    else Number(Digits(s))
  }

  const PREFIX: string := "TW_BARBERSHOP\t"

  const PREVIEW_COMMANDS: seq<string> := [
    "C2S_PREVIEW_STYLE", "C2S_PREVIEW_COLOR", "C2S_PREVIEW_FACIAL_HAIR", "C2S_PREVIEW_SKIN", "C2S_PREVIEW_FACE"
  ]

  function ParseFrom(fields: seq<string>, k: Customization): Command
    requires fields != []
    decreases CUSTOMIZATIONS - k
  {
    if fields[0] == PREVIEW_COMMANDS[k] then
      if |fields| < 2 then Incomplete else PreviewValue(k, Atoi(fields[1]))
    else if k + 1 < CUSTOMIZATIONS then ParseFrom(fields, k + 1)
    else if fields[0] == "C2S_PREVIEW_HEIGHT" then
      if |fields| < 2 then Incomplete else PreviewHeight(Atoi(fields[1]))
    else if fields[0] == "C2S_PURCHASE" then Buy
    else if fields[0] == "C2S_RESET" then Reset
    else if fields[0] == "C2S_CLOSE" then Close
    else Unknown
  }

  function Parse(msg: string): Command
    requires PREFIX <= msg
  {
    ParseFrom(Split(msg[|PREFIX|..]), 0)
  }

  // ----- Players -----

  class Character {
    const guid: nat
    var online: bool
    var level: nat
    var race: nat
    var gender: nat
    var money: nat
    var fields: Appearance
    var shown: Appearance
    var sent: seq<Reply>

    constructor (guid: nat, race: nat, gender: nat, fields: Appearance)
      ensures this.guid == guid
      ensures State() == Player(true, 1, race, gender, 0, fields, fields, [])
    {
      this.guid, this.race, this.gender, this.fields, this.shown := guid, race, gender, fields, fields;
      online, level, money := true, 1, 0;
      sent := [];
    }

    function State(): Player
      reads this
    {
      Player(online, level, race, gender, money, fields, shown, sent)
    }

    method Say(r: Reply)
      modifies this
      ensures State() == Send(old(State()), r)
    {
      sent := sent + [r];
    }

    method Show(was: Look, look: Look)
      requires fields.Valid() && shown.Valid() && was.Valid() && look.Valid()
      modifies this
      ensures State() == ShowLook(old(State()), was, look)
    {
      if look.height != was.height {
        shown := shown.(scale := look.height as real / 1000.0);
      }
      if look.values != was.values {
        var update := fields;
        for i := 0 to CUSTOMIZATIONS
          invariant update == WithBytes(fields, look.values, i)
        {
          update := WithByte(update, i, look.values[i]);
        }
        shown := shown.(bytes := update.bytes, bytes2 := update.bytes2);
      }
    }

    method Apply(look: Look)
      requires fields.Valid() && shown.Valid() && look.Valid()
      modifies this
      ensures State() == ApplyLook(old(State()), look)
    {
      HeightRoundTrip(look.height);
      if ReadLook(fields).height != look.height {
        fields := fields.(scale := look.height as real / 1000.0);
        shown := shown.(scale := fields.scale);
      }
      var before := fields;
      for i := 0 to CUSTOMIZATIONS
        invariant fields == WithBytes(before, look.values, i)
        invariant State() == old(State()).(fields := fields, shown := shown)
        invariant shown == old(shown).(scale := shown.scale)
        invariant shown.scale == if ReadLook(old(fields)).height != look.height then fields.scale else old(shown).scale
      {
        if ByteAt(fields, i) != look.values[i] {
          fields := WithByte(fields, i, look.values[i]);
        } else {
          SameByte(fields, i, look.values[i]);
        }
      }
      if fields.bytes != before.bytes {
        shown := shown.(bytes := fields.bytes);
      }
      if fields.bytes2 != before.bytes2 {
        shown := shown.(bytes2 := fields.bytes2);
      }
    }
  }

  lemma SameByte(a: Appearance, c: nat, v: byte)
    requires a.Valid() && c < CUSTOMIZATIONS && ByteAt(a, c) == v
    ensures WithByte(a, c, v) == a
  {
  }

  // ----- The manager -----

  class Manager {
    const prices: Prices
    var sessions: map<nat, Session>
    var count: nat

    constructor (prices: Prices)
      ensures Valid() && this.prices == prices && sessions == map[]
    {
      this.prices := prices;
      sessions, count := map[], 0;
    }

    /** The count an update reads without the lock is the number of sessions. */
    ghost predicate Valid()
      reads this
    {
      count == |sessions|
    }

    function SessionOf(guid: nat): Option<Session>
      reads this
    {
      if guid in sessions then Some(sessions[guid]) else None
    }

    function SeatOf(p: Character): Seat
      reads this, p
    {
      Seat(p.State(), SessionOf(p.guid))
    }

    /** Nobody else's session changed. */
    twostate predicate OnlyFor(p: Character)
      reads this
    {
      forall g :: g != p.guid ==> SessionOf(g) == old(SessionOf(g))
    }

    method Open(p: Character, condition: Condition, chair: nat)
      requires Valid() && SeatOk(SeatOf(p)) && p.online
      modifies this, p
      ensures Valid() && SeatOf(p) == Next(prices, old(SeatOf(p)), Event.Open(condition, chair)) && OnlyFor(p)
    {
      if condition.Unfit? {
        return;
      }
      if condition.Transformed? {
        p.Say(NotInThisForm);
        return;
      }
      if p.guid in sessions {
        return;
      }
      var look := ReadLook(p.fields);
      sessions := sessions[p.guid := Session(chair, look, look)];
      count := count + 1;
      p.Say(Opened(look));
    }

    method CloseFor(p: Character, notify: bool)
      requires Valid() && SeatOk(SeatOf(p)) && p.guid in sessions
      modifies this, p
      ensures Valid() && SeatOf(p) == CloseSession(old(SeatOf(p)), notify) && OnlyFor(p)
    {
      var session := sessions[p.guid];
      if notify && session.preview != session.original {
        p.Show(session.preview, session.original);
      }
      sessions := map g | g in sessions && g != p.guid :: sessions[g];
      assert sessions.Keys == old(sessions.Keys) - {p.guid};
      count := count - 1;
      if notify {
        p.Say(Closed);
      }
    }

    /** Whether the message was meant for the barbershop; a message for it is handled in full. */
    method HandleAddonMessage(p: Character, guildChat: bool, msg: string) returns (handled: bool)
      requires Valid() && SeatOk(SeatOf(p)) && p.online
      modifies this, p
      ensures Valid() && OnlyFor(p) && (handled <==> guildChat && PREFIX <= msg)
      ensures SeatOf(p) == if handled then Next(prices, old(SeatOf(p)), Message(Parse(msg))) else old(SeatOf(p))
    {
      hide ParseFrom, Handle;
      if !guildChat || !(PREFIX <= msg) {
        return false;
      }
      handled := true;
      var fields := SplitFields(msg[|PREFIX|..]);
      HandleCommand(p, ParseFrom(fields, 0));
    }

    method HandleCommand(p: Character, command: Command)
      requires Valid() && SeatOk(SeatOf(p))
      modifies this, p
      ensures Valid() && SeatOf(p) == Handle(prices, old(SeatOf(p)), command) && OnlyFor(p)
    {
      hide Cost, IsAllowed, IsHeightAllowed, MovePreview, ApplyLook, ShowLook;
      if p.guid !in sessions {
        if !command.Close? {
          p.Say(Refused(NO_SESSION));
        }
        return;
      }
      match command
      case PreviewValue(k, v) => PreviewValueFor(p, k, v);
      case PreviewHeight(v) => PreviewHeightFor(p, v);
      case Buy => PurchaseFor(p);
      case Reset => ResetFor(p);
      case Close => CloseFor(p, true);
      case Incomplete =>
      case Unknown =>
    }

    method PreviewValueFor(p: Character, k: Customization, v: int)
      requires Valid() && SeatOk(SeatOf(p)) && p.guid in sessions
      modifies this, p
      ensures Valid() && SeatOf(p) == Handle(prices, old(SeatOf(p)), PreviewValue(k, v)) && OnlyFor(p)
    {
      hide ShowLook, Cost, HeightOf;
      var session := sessions[p.guid];
      if v < 0 || v > 255 || !IsAllowed(p.race, p.gender, session.original, k, v) {
        p.Say(Refused(NOT_ALLOWED));
      } else {
        session := MoveTo(p, session, session.preview.(values := session.preview.values[k := v]));
      }
      p.Say(Preview(Cost(prices, p.level, session.original, session.preview), session.preview));
    }

    method PreviewHeightFor(p: Character, v: int)
      requires Valid() && SeatOk(SeatOf(p)) && p.guid in sessions
      modifies this, p
      ensures Valid() && SeatOf(p) == Handle(prices, old(SeatOf(p)), PreviewHeight(v)) && OnlyFor(p)
    {
      hide ShowLook, Cost, HeightOf;
      var session := sessions[p.guid];
      if !IsHeightAllowed(session.original, v) {
        p.Say(Refused(NOT_ALLOWED));
      } else {
        session := MoveTo(p, session, session.preview.(height := v));
      }
      p.Say(Preview(Cost(prices, p.level, session.original, session.preview), session.preview));
    }

    method PurchaseFor(p: Character)
      requires Valid() && SeatOk(SeatOf(p)) && p.guid in sessions
      modifies this, p
      ensures Valid() && SeatOf(p) == Handle(prices, old(SeatOf(p)), Buy) && OnlyFor(p)
    {
      hide ApplyLook, Cost, HeightOf;
      var session := sessions[p.guid];
      var cost := Cost(prices, p.level, session.original, session.preview);
      if p.money < cost {
        p.Say(Refused(NO_MONEY));
        return;
      }
      p.money := p.money - cost;
      p.Apply(session.preview);
      sessions := sessions[p.guid := session.(original := session.preview)];
      p.Say(Bought(session.preview));
    }

    method ResetFor(p: Character)
      requires Valid() && SeatOk(SeatOf(p)) && p.guid in sessions
      modifies this, p
      ensures Valid() && SeatOf(p) == Handle(prices, old(SeatOf(p)), Reset) && OnlyFor(p)
    {
      hide ShowLook, Cost, HeightOf;
      var session := sessions[p.guid];
      session := MoveTo(p, session, session.original);
      p.Say(Preview(Cost(prices, p.level, session.original, session.preview), session.preview));
    }

    method MoveTo(p: Character, session: Session, look: Look) returns (moved: Session)
      requires Valid() && SeatOk(SeatOf(p)) && SessionOf(p.guid) == Some(session) && look.Valid()
      modifies this, p
      ensures Valid() && OnlyFor(p) && SessionOf(p.guid) == Some(moved)
      ensures (p.State(), moved) == MovePreview(old(p.State()), session, look)
    {
      moved := session;
      if look != session.preview {
        p.Show(session.preview, look);
        moved := session.(preview := look);
        sessions := sessions[p.guid := moved];
      }
    }

    /** The per-tick check, with its early way out; the outcome is that of the full lookup. */
    method Update(p: Character, stays: bool)
      requires Valid() && SeatOk(SeatOf(p))
      modifies this, p
      ensures Valid() && SeatOf(p) == Next(prices, old(SeatOf(p)), Event.Update(stays)) && OnlyFor(p)
    {
      if count == 0 {
        return;
      }
      if p.guid !in sessions {
        return;
      }
      if !stays {
        CloseFor(p, true);
      }
    }

    method OnLogout(p: Character)
      requires Valid() && SeatOk(SeatOf(p))
      modifies this, p
      ensures Valid() && SeatOf(p) == Next(prices, old(SeatOf(p)), Logout) && OnlyFor(p)
    {
      if count != 0 && p.guid in sessions {
        CloseFor(p, false);
      }
      p.online := false;
    }
  }
}
