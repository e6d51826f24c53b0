/**
 One player at the barbershop: what the player owns, what only their own client is shown, and what they pay. The fields are
 the ones the game keeps; the functions are what each message does to them.
 */
module Barbershop {
  import opened Wrappers
  import opened BarbershopRules
  import opened Bytes

  /** Where each customization lives: field 0 is PLAYER_BYTES, field 1 is PLAYER_BYTES_2. */
  const PLACES: seq<(nat, nat)> := [(0, 2), (0, 3), (1, 0), (0, 0), (0, 1)]

  /** The two appearance fields, each as its four bytes, and the scale relative to the race's own. */
  datatype Appearance = Appearance(bytes: seq<byte>, bytes2: seq<byte>, scale: real) {
    predicate Valid()
    {
      |bytes| == 4 && |bytes2| == 4 && scale >= 0.0 && HeightOf(scale) < 65536
    }
  }

  function ByteAt(a: Appearance, c: nat): byte
    requires a.Valid() && c < CUSTOMIZATIONS
  {
    if PLACES[c].0 == 0 then a.bytes[PLACES[c].1] else a.bytes2[PLACES[c].1]
  }

  function WithByte(a: Appearance, c: nat, v: byte): (r: Appearance)
    requires a.Valid() && c < CUSTOMIZATIONS
    ensures r.Valid() && r.scale == a.scale
    ensures forall d :: 0 <= d < CUSTOMIZATIONS ==> ByteAt(r, d) == if d == c then v else ByteAt(a, d)
  {
    if PLACES[c].0 == 0 then a.(bytes := a.bytes[PLACES[c].1 := v]) else a.(bytes2 := a.bytes2[PLACES[c].1 := v])
  }

  function WithBytes(a: Appearance, values: seq<byte>, c: nat): (r: Appearance)
    requires a.Valid() && |values| == CUSTOMIZATIONS && c <= CUSTOMIZATIONS
    ensures r.Valid() && r.scale == a.scale
    ensures forall d :: 0 <= d < CUSTOMIZATIONS ==> ByteAt(r, d) == if d < c then values[d] else ByteAt(a, d)
  {
    if c == 0 then a else WithByte(WithBytes(a, values, c - 1), c - 1, values[c - 1])
  }

  /** A scale in thousandths, rounded. */
  function HeightOf(scale: real): nat
    requires scale >= 0.0
  {
    (scale * 1000.0 + 0.5).Floor
  }

  function ReadLook(a: Appearance): (look: Look)
    requires a.Valid()
    ensures look.Valid()
    ensures forall c :: 0 <= c < CUSTOMIZATIONS ==> look.values[c] == ByteAt(a, c)
  {
    Look(seq(CUSTOMIZATIONS, c requires 0 <= c < CUSTOMIZATIONS => ByteAt(a, c)), HeightOf(a.scale))
  }

  lemma HeightRoundTrip(h: nat)
    ensures HeightOf(h as real / 1000.0) == h
  {
    assert h as real / 1000.0 * 1000.0 == h as real;
  }

  // ----- One player -----

  datatype Reply =
    | Refused(error: nat)
    | Preview(cost: nat, look: Look)
    | Bought(look: Look)
    | Opened(look: Look)
    | Closed
    | NotInThisForm

  const NO_SESSION := 1
  const NO_MONEY := 2
  const NOT_ALLOWED := 4

  datatype Session = Session(chair: nat, original: Look, preview: Look)

  datatype Player = Player(
    online: bool,
    level: nat, race: nat, gender: nat,
    money: nat,
    fields: Appearance,      // the fields everyone in view sees
    shown: Appearance,       // what the player's own client has been sent last
    sent: seq<Reply>
  )

  /** A player and their session, if they have one. */
  datatype Seat = Seat(p: Player, session: Option<Session>)

  function Send(p: Player, r: Reply): Player
  {
    p.(sent := p.sent + [r])
  }

  /** Shows a look to the player's own client; what the client shows already tells what has to be sent. */
  function ShowLook(p: Player, shown: Look, look: Look): (r: Player)
    requires p.fields.Valid() && p.shown.Valid() && shown.Valid() && look.Valid()
    ensures r.shown.Valid()
  {
    HeightRoundTrip(look.height);
    var scaled := if look.height != shown.height then p.shown.(scale := look.height as real / 1000.0) else p.shown;
    var placed := WithBytes(p.fields, look.values, CUSTOMIZATIONS);
    p.(shown := if look.values != shown.values then scaled.(bytes := placed.bytes, bytes2 := placed.bytes2) else scaled)
  }

  /** Sets the real fields; what changed goes to everyone, the player included. */
  function ApplyLook(p: Player, look: Look): (r: Player)
    requires p.fields.Valid() && p.shown.Valid() && look.Valid()
    ensures r.fields.Valid() && r.shown.Valid()
  {
    HeightRoundTrip(look.height);
    var rescale := ReadLook(p.fields).height != look.height;
    var a := if rescale then p.fields.(scale := look.height as real / 1000.0) else p.fields;
    var b := WithBytes(a, look.values, CUSTOMIZATIONS);
    p.(fields := b,
       shown := Appearance(if b.bytes != a.bytes then b.bytes else p.shown.bytes,
                           if b.bytes2 != a.bytes2 then b.bytes2 else p.shown.bytes2,
                           if rescale then b.scale else p.shown.scale))
  }

  function SendPreview(c: Prices, p: Player, s: Session): Player
    requires s.original.Valid() && s.preview.Valid()
  {
    Send(p, Preview(Cost(c, p.level, s.original, s.preview), s.preview))
  }

  // ----- Events -----

  type Customization = c: nat | c < CUSTOMIZATIONS

  /** A message from the client, its fields told apart. */
  datatype Command =
    | PreviewValue(customization: Customization, value: int)
    | PreviewHeight(value: int)
    | Buy
    | Reset
    | Close
    | Incomplete       // a preview without its value
    | Unknown

  /** Whether the player is in a state to sit down: alive, out of combat, in natural form. */
  datatype Condition = Fit | Unfit | Transformed

  datatype Event =
    | Open(condition: Condition, chair: nat)
    | Message(command: Command)
    | Update(stays: bool)
    | Logout
    | Login
    | Elsewhere(level: nat, gain: int)   // the rest of the game: a level, money won or spent

  predicate SessionOk(s: Session)
  {
    s.original.Valid() && s.preview.Valid()
  }

  predicate SeatOk(seat: Seat)
  {
    && seat.p.fields.Valid() && seat.p.shown.Valid()
    && (seat.session.Some? ==> SessionOk(seat.session.value))
  }

  function OpenSession(seat: Seat, chair: nat): Seat
    requires SeatOk(seat)
  {
    if seat.session.Some? then seat
    else
      var look := ReadLook(seat.p.fields);
      Seat(Send(seat.p, Opened(look)), Some(Session(chair, look, look)))
  }

  function CloseSession(seat: Seat, notify: bool): Seat
    requires SeatOk(seat) && seat.session.Some?
  {
    var s := seat.session.value;
    var p := if notify && s.preview != s.original then ShowLook(seat.p, s.preview, s.original) else seat.p;
    Seat(if notify then Send(p, Closed) else p, None)
  }

  /** Moves the preview, and the client's picture with it. */
  function MovePreview(p: Player, s: Session, look: Look): (Player, Session)
    requires p.fields.Valid() && p.shown.Valid() && SessionOk(s) && look.Valid()
  {
    if look != s.preview then (ShowLook(p, s.preview, look), s.(preview := look)) else (p, s)
  }

  function Handle(c: Prices, seat: Seat, command: Command): Seat
    requires SeatOk(seat)
  {
    if seat.session.None? then
      if command.Close? then seat else seat.(p := Send(seat.p, Refused(NO_SESSION)))
    else
      var p, s := seat.p, seat.session.value;
      match command
      case PreviewValue(k, v) =>
        if v < 0 || v > 255 || !IsAllowed(p.race, p.gender, s.original, k, v) then
          Seat(SendPreview(c, Send(p, Refused(NOT_ALLOWED)), s), Some(s))
        else
          var (q, t) := MovePreview(p, s, s.preview.(values := s.preview.values[k := v]));
          Seat(SendPreview(c, q, t), Some(t))
      case PreviewHeight(v) =>
        if !IsHeightAllowed(s.original, v) then Seat(SendPreview(c, Send(p, Refused(NOT_ALLOWED)), s), Some(s))
        else
          var (q, t) := MovePreview(p, s, s.preview.(height := v));
          Seat(SendPreview(c, q, t), Some(t))
      case Buy =>
        var cost := Cost(c, p.level, s.original, s.preview);
        if p.money < cost then Seat(Send(p, Refused(NO_MONEY)), Some(s))
        else
          Seat(Send(ApplyLook(p.(money := p.money - cost), s.preview), Bought(s.preview)), Some(s.(original := s.preview)))
      case Reset =>
        var (q, t) := MovePreview(p, s, s.original);
        Seat(SendPreview(c, q, t), Some(t))
      case Close => CloseSession(seat, true)
      case Incomplete => seat
      case Unknown => seat
  }

  /** Only a player who is online can do anything here; logging in starts with a fresh picture of the real fields. */
  function Next(c: Prices, seat: Seat, e: Event): Seat
    requires SeatOk(seat)
  {
    match e
    case Login => if seat.p.online then seat else seat.(p := seat.p.(online := true, shown := seat.p.fields))
    case Elsewhere(level, gain) =>
      if seat.p.money + gain >= 0 then seat.(p := seat.p.(level := level, money := seat.p.money + gain)) else seat
    case Logout =>
      var closed := if seat.session.Some? then CloseSession(seat, false) else seat;
      closed.(p := closed.p.(online := false))
    case Open(condition, chair) =>
      if !seat.p.online || condition.Unfit? then seat
      else if condition.Transformed? then seat.(p := Send(seat.p, NotInThisForm))
      else OpenSession(seat, chair)
    case Message(command) => if seat.p.online then Handle(c, seat, command) else seat
    case Update(stays) => if seat.session.None? || stays then seat else CloseSession(seat, true)
  }

  // ----- Coherence -----

  /**
   While a session is open: it knows the look the player owns, the client shows the preview, and every part of the preview
   is allowed.
   */
  predicate Coherent(seat: Seat)
  {
    && SeatOk(seat)
    && (seat.p.online && seat.session.None? ==> ReadLook(seat.p.shown) == ReadLook(seat.p.fields))
    && (seat.session.Some? ==>
          var s := seat.session.value;
          && seat.p.online
          && s.original == ReadLook(seat.p.fields)
          && s.preview == ReadLook(seat.p.shown)
          && AllAllowed(seat.p.race, seat.p.gender, s.original, s.preview))
  }

  lemma ShownIs(p: Player, shown: Look, look: Look)
    requires p.fields.Valid() && p.shown.Valid() && look.Valid()
    requires shown == ReadLook(p.shown)
    ensures ReadLook(ShowLook(p, shown, look).shown) == look
  {
    HeightRoundTrip(look.height);
    var a := ShowLook(p, shown, look).shown;
    assert ReadLook(a).values == look.values by {
      if look.values != shown.values {
        var placed := WithBytes(p.fields, look.values, CUSTOMIZATIONS);
        forall c | 0 <= c < CUSTOMIZATIONS ensures ByteAt(a, c) == look.values[c] {
          assert ByteAt(placed, c) == look.values[c];
        }
      } else {
        forall c | 0 <= c < CUSTOMIZATIONS ensures ByteAt(a, c) == look.values[c] {
          assert ByteAt(p.shown, c) == shown.values[c];
        }
      }
    }
  }

  lemma AppliedIs(p: Player, look: Look)
    requires p.fields.Valid() && p.shown.Valid() && look.Valid()
    ensures ReadLook(ApplyLook(p, look).fields) == look
    ensures look == ReadLook(p.shown) ==> ReadLook(ApplyLook(p, look).shown) == look
  {
    HeightRoundTrip(look.height);
    var q := ApplyLook(p, look);
    assert ReadLook(q.fields).values == look.values;
    if look == ReadLook(p.shown) {
      forall c | 0 <= c < CUSTOMIZATIONS ensures ByteAt(q.shown, c) == look.values[c] {
        assert ByteAt(q.fields, c) == look.values[c] && ByteAt(p.shown, c) == look.values[c];
      }
      assert ReadLook(q.shown).values == look.values;
    }
  }

  lemma MovedIs(p: Player, s: Session, look: Look)
    requires p.fields.Valid() && p.shown.Valid() && SessionOk(s) && look.Valid()
    requires s.preview == ReadLook(p.shown)
    ensures var (q, t) := MovePreview(p, s, look);
            && q.shown.Valid() && q.fields == p.fields && q.race == p.race && q.gender == p.gender && q.money == p.money
            && q.sent == p.sent && q.online == p.online
            && t.original == s.original && t.preview == look && ReadLook(q.shown) == look
  {
    ShownIs(p, s.preview, look);
  }

  lemma MoveKeeps(c: Prices, seat: Seat, look: Look)
    requires Coherent(seat) && seat.session.Some? && look.Valid()
    requires AllAllowed(seat.p.race, seat.p.gender, seat.session.value.original, look)
    ensures var (q, t) := MovePreview(seat.p, seat.session.value, look);
            var next := Seat(SendPreview(c, q, t), Some(t)); Coherent(next) && Keeps(seat.p, next.p)
  {
    hide Cost, AllAllowed, ReadLook, ShowLook;
    MovedIs(seat.p, seat.session.value, look);
  }

  /** The server tells the client of a purchase. */
  predicate SaysBought(p: Player, next: Player)
  {
    |next.sent| > |p.sent| && next.sent[|next.sent| - 1].Bought?
  }

  /** Nothing is bought, and neither the money nor the real look changes. */
  predicate Keeps(p: Player, next: Player)
    requires p.fields.Valid() && next.fields.Valid()
  {
    !SaysBought(p, next) && next.money == p.money && ReadLook(next.fields) == ReadLook(p.fields)
  }

  /** Something is bought, at the price of the change in the real look. */
  predicate Pays(c: Prices, p: Player, next: Player)
    requires p.fields.Valid() && next.fields.Valid()
  {
    SaysBought(p, next) && next.money == p.money - Cost(c, p.level, ReadLook(p.fields), ReadLook(next.fields))
  }

  lemma BuyKeeps(c: Prices, seat: Seat)
    requires Coherent(seat) && seat.session.Some?
    ensures var next := Handle(c, seat, Buy);
            Coherent(next) && (Keeps(seat.p, next.p) || Pays(c, seat.p, next.p))
  {
    BuyCoheres(c, seat);
    BuyPays(c, seat);
  }

  lemma BuyCoheres(c: Prices, seat: Seat)
    requires Coherent(seat) && seat.session.Some?
    ensures Coherent(Handle(c, seat, Buy))
  {
    var p, s := seat.p, seat.session.value;
    var cost := Cost(c, p.level, s.original, s.preview);
    hide Cost, ReadLook, AllAllowed, ApplyLook;
    if p.money >= cost {
      var q := p.(money := p.money - cost);
      AppliedIs(q, s.preview);
      ApplyOnly(q, s.preview);
      AllowedStays(p.race, p.gender, s.preview);
    }
  }

  lemma AllowedStays(race: nat, gender: nat, look: Look)
    requires look.Valid()
    ensures AllAllowed(race, gender, look, look)
  {
  }

  lemma BuyPays(c: Prices, seat: Seat)
    requires Coherent(seat) && seat.session.Some? && SeatOk(Handle(c, seat, Buy))
    ensures var next := Handle(c, seat, Buy); Keeps(seat.p, next.p) || Pays(c, seat.p, next.p)
  {
    var p, s := seat.p, seat.session.value;
    BuyIs(c, seat);
    hide Cost, ReadLook, AllAllowed, ApplyLook, Handle;
    var cost := Cost(c, p.level, s.original, s.preview);
    if p.money >= cost {
      var q := p.(money := p.money - cost);
      AppliedIs(q, s.preview);
      ApplyOnly(q, s.preview);
    }
  }

  lemma BuyIs(c: Prices, seat: Seat)
    requires SeatOk(seat) && seat.session.Some?
    ensures var p, s := seat.p, seat.session.value;
            var cost := Cost(c, p.level, s.original, s.preview);
            Handle(c, seat, Buy)
            == if p.money < cost then Seat(Send(p, Refused(NO_MONEY)), Some(s))
               else Seat(Send(ApplyLook(p.(money := p.money - cost), s.preview), Bought(s.preview)),
                         Some(s.(original := s.preview)))
  {
    hide Cost, ApplyLook, MovePreview, CloseSession;
  }

  lemma ApplyOnly(p: Player, look: Look)
    requires p.fields.Valid() && p.shown.Valid() && look.Valid()
    ensures var q := ApplyLook(p, look); q == p.(fields := q.fields, shown := q.shown)
  {
  }

  /** The price in the last preview is the price of buying what it shows. */
  lemma PreviewTellsThePrice(c: Prices, seat: Seat, command: Command)
    requires Coherent(seat) && seat.session.Some? && (command.PreviewValue? || command.PreviewHeight? || command.Reset?)
    ensures var next := Handle(c, seat, command);
            && next.session.Some? && next.p.sent != [] && next.p.sent[|next.p.sent| - 1].Preview?
            && var offer, bought := next.p.sent[|next.p.sent| - 1], Handle(c, next, Buy);
            if next.p.money < offer.cost then
              bought == next.(p := Send(next.p, Refused(NO_MONEY)))
            else
              bought.p.money == next.p.money - offer.cost && ReadLook(bought.p.fields) == offer.look
              && bought.session == Some(Session(seat.session.value.chair, offer.look, offer.look))
  {
    HandleKeeps(c, seat, command);
    OffersItsPreview(c, seat, command);
    BuyAtPrice(c, Handle(c, seat, command));
  }

  lemma OffersItsPreview(c: Prices, seat: Seat, command: Command)
    requires Coherent(seat) && seat.session.Some? && (command.PreviewValue? || command.PreviewHeight? || command.Reset?)
    ensures var next := Handle(c, seat, command);
            && next.session.Some? && next.session.value.chair == seat.session.value.chair
            && next.session.value.original == seat.session.value.original && next.session.value.preview.Valid()
            && next.p.sent != [] && next.p.sent[|next.p.sent| - 1]
               == Preview(Cost(c, next.p.level, next.session.value.original, next.session.value.preview),
                          next.session.value.preview)
  {
    hide Cost, ReadLook, ShowLook, AllAllowed;
  }

  lemma BuyAtPrice(c: Prices, seat: Seat)
    requires Coherent(seat) && seat.session.Some?
    ensures var s := seat.session.value;
            var cost, bought := Cost(c, seat.p.level, s.original, s.preview), Handle(c, seat, Buy);
            if seat.p.money < cost then bought == seat.(p := Send(seat.p, Refused(NO_MONEY)))
            else bought.p.money == seat.p.money - cost && ReadLook(bought.p.fields) == s.preview
                 && bought.session == Some(Session(s.chair, s.preview, s.preview))
  {
    var s := seat.session.value;
    var cost := Cost(c, seat.p.level, s.original, s.preview);
    hide Cost, ReadLook, AllAllowed, ApplyLook;
    if seat.p.money >= cost {
      var q := seat.p.(money := seat.p.money - cost);
      AppliedIs(q, s.preview);
      ApplyOnly(q, s.preview);
    }
  }

  lemma CloseKeeps(seat: Seat, notify: bool)
    requires Coherent(seat) && seat.session.Some?
    ensures var next := CloseSession(seat, notify);
            && SeatOk(next) && next.session.None?
            && Coherent(next.(p := next.p.(online := notify)))
            && Keeps(seat.p, next.p)
            && (notify ==> ReadLook(next.p.shown) == ReadLook(next.p.fields))
  {
    var s := seat.session.value;
    hide AllAllowed, ReadLook, ShowLook;
    ShownIs(seat.p, s.preview, s.original);
  }

  /** What the rest of the game does to the money. */
  function Gain(p: Player, e: Event): int
  {
    if e.Elsewhere? && p.money + e.gain >= 0 then e.gain else 0
  }

  /** Every event keeps a player's session coherent; one closed with notice leaves the client showing the real look. */
  lemma EventKeeps(c: Prices, seat: Seat, e: Event)
    requires Coherent(seat)
    ensures var next := Next(c, seat, e);
            && Coherent(next)
            && (seat.session.Some? && next.session.None? && e != Logout ==>
                  ReadLook(next.p.shown) == ReadLook(next.p.fields))
  {
    hide Cost, AllAllowed, ReadLook, MovePreview, CloseSession;
    match e
    case Open(condition, chair) =>
      if condition.Fit? && seat.session.None? && seat.p.online { OpenKeeps(seat, chair); }
    case Message(command) => HandleKeeps(c, seat, command);
    case Update(stays) => if seat.session.Some? && !stays { CloseKeeps(seat, true); }
    case Logout => if seat.session.Some? { CloseKeeps(seat, false); }
    case Login =>
    case Elsewhere(level, gain) =>
  }

  /** Money and the real look change by purchases, each at the price of the change, and elsewhere. */
  lemma EventPays(c: Prices, seat: Seat, e: Event)
    requires Coherent(seat)
    ensures var next := Next(c, seat, e);
            && next.p.fields.Valid()
            && ((Gain(seat.p, e) == 0 && Pays(c, seat.p, next.p)) || Keeps(seat.p.(money := seat.p.money + Gain(seat.p, e)), next.p))
  {
    hide Cost, AllAllowed, ReadLook, MovePreview, CloseSession;
    match e
    case Open(condition, chair) =>
    case Message(command) => HandleKeeps(c, seat, command);
    case Update(stays) => if seat.session.Some? && !stays { CloseKeeps(seat, true); }
    case Logout => if seat.session.Some? { CloseKeeps(seat, false); }
    case Login =>
    case Elsewhere(level, gain) =>
  }

  lemma OpenKeeps(seat: Seat, chair: nat)
    requires Coherent(seat) && seat.session.None? && seat.p.online
    ensures Coherent(OpenSession(seat, chair))
  {
  }

  lemma HandleKeeps(c: Prices, seat: Seat, command: Command)
    requires Coherent(seat)
    ensures var next := Handle(c, seat, command);
            && Coherent(next) && (Keeps(seat.p, next.p) || Pays(c, seat.p, next.p))
            && (seat.session.Some? && next.session.None? ==> ReadLook(next.p.shown) == ReadLook(next.p.fields))
  {
    if seat.session.Some? {
      var p, s := seat.p, seat.session.value;
      match command
      case PreviewValue(k, v) =>
        if 0 <= v <= 255 && IsAllowed(p.race, p.gender, s.original, k, v) {
          MoveKeeps(c, seat, s.preview.(values := s.preview.values[k := v]));
        }
      case PreviewHeight(v) =>
        if IsHeightAllowed(s.original, v) { MoveKeeps(c, seat, s.preview.(height := v)); }
      case Buy => BuyKeeps(c, seat);
      case Reset => MoveKeeps(c, seat, s.original);
      case Close => CloseKeeps(seat, true);
      case Incomplete =>
      case Unknown =>
    }
  }

  // ----- Whole runs -----

  function After(c: Prices, seat: Seat, events: seq<Event>): (end: Seat)
    requires Coherent(seat)
    ensures Coherent(end)
    decreases |events|
  {
    if events == [] then seat else EventKeeps(c, seat, events[0]); After(c, Next(c, seat, events[0]), events[1..])
  }

  /** What one purchase was: the level, and the real look before and after. */
  datatype Purchase = Purchase(level: nat, from: Look, to: Look)

  /** The purchases of a run, as told to the client. */
  function Purchases(c: Prices, seat: Seat, events: seq<Event>): (r: seq<Purchase>)
    requires Coherent(seat)
    ensures forall x :: x in r ==> x.from.Valid() && x.to.Valid()
    decreases |events|
  {
    if events == [] then []
    else
      var next := Next(c, seat, events[0]);
      EventKeeps(c, seat, events[0]);
      var rest := Purchases(c, next, events[1..]);
      if SaysBought(seat.p, next.p) then
        [Purchase(seat.p.level, ReadLook(seat.p.fields), ReadLook(next.p.fields))] + rest
      else rest
  }

  /** What the rest of the game brought in during a run. */
  function Gains(c: Prices, seat: Seat, events: seq<Event>): int
    requires Coherent(seat)
    decreases |events|
  {
    if events == [] then 0
    else EventKeeps(c, seat, events[0]); Gain(seat.p, events[0]) + Gains(c, Next(c, seat, events[0]), events[1..])
  }

  /** The sum of the prices of purchases. */
  function TotalCost(c: Prices, purchases: seq<Purchase>): nat
    requires forall x :: x in purchases ==> x.from.Valid() && x.to.Valid()
  {
    if purchases == [] then 0
    else Cost(c, purchases[0].level, purchases[0].from, purchases[0].to) + TotalCost(c, purchases[1..])
  }

  /** Over any run the money lost is the sum of the prices of its purchases, less what came in elsewhere. */
  lemma {:induction false} MoneyIsAccountedFor(c: Prices, seat: Seat, events: seq<Event>)
    requires Coherent(seat)
    ensures After(c, seat, events).p.money
            == seat.p.money + Gains(c, seat, events) - TotalCost(c, Purchases(c, seat, events))
    decreases |events|
  {
    if events != [] {
      var e, next := events[0], Next(c, seat, events[0]);
      EventKeeps(c, seat, e);
      EventPays(c, seat, e);
      MoneyIsAccountedFor(c, next, events[1..]);
      PurchasesHead(c, seat, events);
    }
    hide Next, ReadLook, Cost, Coherent;
  }

  lemma PurchasesHead(c: Prices, seat: Seat, events: seq<Event>)
    requires Coherent(seat) && events != [] && Coherent(Next(c, seat, events[0]))
    ensures var next, all := Next(c, seat, events[0]), Purchases(c, seat, events);
            var rest := Purchases(c, next, events[1..]);
            if SaysBought(seat.p, next.p) then
              all != [] && all[0] == Purchase(seat.p.level, ReadLook(seat.p.fields), ReadLook(next.p.fields))
              && all[1..] == rest
            else all == rest
  {
    hide Next, ReadLook, Coherent;
  }

  /** The looks a player had in turn, from the first purchase to the last. */
  function PathOf(owned: Look, purchases: seq<Purchase>): (path: seq<Look>)
    requires owned.Valid() && forall x :: x in purchases ==> x.from.Valid() && x.to.Valid()
    ensures |path| == |purchases| + 1 && Looks(path) && path[0] == owned
    decreases |purchases|
  {
    [owned] + if purchases == [] then [] else PathOf(purchases[0].to, purchases[1..])
  }

  /** Purchases lead from look to look, and where there is none the look stays; at one level they cost what the path costs. */
  lemma {:induction false} PurchasesLead(c: Prices, seat: Seat, events: seq<Event>)
    requires Coherent(seat) && forall e :: e in events && e.Elsewhere? ==> e.level == seat.p.level
    ensures var ps, owned := Purchases(c, seat, events), ReadLook(seat.p.fields);
            var path := PathOf(owned, ps);
            && path[|path| - 1] == ReadLook(After(c, seat, events).p.fields)
            && TotalCost(c, ps) == PathCost(c, seat.p.level, path)
    decreases |events|
  {
    hide ReadLook, Cost, TotalCost, PathCost, PathOf;
    var owned := ReadLook(seat.p.fields);
    if events == [] {
      NoPurchases(c, seat.p.level, owned);
    } else {
      var e, next, ps := events[0], Next(c, seat, events[0]), Purchases(c, seat, events);
      EventKeeps(c, seat, e);
      EventPays(c, seat, e);
      SameLevel(c, seat, e);
      hide Next, Coherent;
      PurchasesHead(c, seat, events);
      PurchasesLead(c, next, events[1..]);
      if SaysBought(seat.p, next.p) {
        PathHead(c, seat.p.level, owned, ps);
      }
    }
  }

  lemma NoPurchases(c: Prices, level: nat, owned: Look)
    requires owned.Valid()
    ensures PathOf(owned, []) == [owned] && PathCost(c, level, [owned]) == 0 == TotalCost(c, [])
  {
  }

  lemma PathHead(c: Prices, level: nat, owned: Look, ps: seq<Purchase>)
    requires owned.Valid() && ps != [] && forall x :: x in ps ==> x.from.Valid() && x.to.Valid()
    ensures var path, rest := PathOf(owned, ps), PathOf(ps[0].to, ps[1..]);
            && PathCost(c, level, path) == Cost(c, level, owned, ps[0].to) + PathCost(c, level, rest)
            && TotalCost(c, ps) == Cost(c, ps[0].level, ps[0].from, ps[0].to) + TotalCost(c, ps[1..])
            && path[|path| - 1] == rest[|rest| - 1]
  {
    hide Cost;
    var path, rest := PathOf(owned, ps), PathOf(ps[0].to, ps[1..]);
    assert path[1..] == rest && path[1] == rest[0];
  }

  lemma SameLevel(c: Prices, seat: Seat, e: Event)
    requires Coherent(seat) && (e.Elsewhere? ==> e.level == seat.p.level)
    ensures Next(c, seat, e).p.level == seat.p.level
  {
    hide Cost, ReadLook;
  }

  lemma NothingCostsNothing(c: Prices, level: nat, look: Look)
    requires look.Valid()
    ensures Cost(c, level, look, look) == 0
  {
    assert Percent(c, look, look) == 0;
  }

  /** Over any run at one level: what the purchases took is at least the direct price, less a copper for each but one. */
  lemma NoBargain(c: Prices, seat: Seat, events: seq<Event>)
    requires Coherent(seat) && NoOverflow(c, seat.p.level) && c.color <= 2 * c.style
    requires forall e :: e in events && e.Elsewhere? ==> e.level == seat.p.level
    ensures var end, k := After(c, seat, events), |Purchases(c, seat, events)|;
            var taken := seat.p.money + Gains(c, seat, events) - end.p.money;
            taken + (if k == 0 then 0 else k - 1)
            >= Cost(c, seat.p.level, ReadLook(seat.p.fields), ReadLook(end.p.fields))
  {
    var ps, owned := Purchases(c, seat, events), ReadLook(seat.p.fields);
    MoneyIsAccountedFor(c, seat, events);
    PurchasesLead(c, seat, events);
    hide Cost, NoOverflow, Coherent, ReadLook, Purchases, TotalCost, Gains;
    if ps == [] {
      NothingCostsNothing(c, seat.p.level, owned);
    } else {
      NoCheaperWay(c, seat.p.level, PathOf(owned, ps));
    }
  }
}
