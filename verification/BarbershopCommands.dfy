/** What a player sends to the barbershop, word by word, and what each word does; what each single change is allowed and costs. */
module BarbershopCommands {
  import opened Wrappers
  import Bytes
  import opened BarbershopRules
  import opened Barbershop
  import opened BarbershopMgr
  import opened Semicolons

  // ----- Words -----

  function WithValue(fields: seq<string>, command: Command): Command
  {
    if |fields| < 2 then Incomplete else command
  }

  function ValueOf(fields: seq<string>): int
  {
    if |fields| < 2 then 0 else Atoi(fields[1])
  }

  function Meaning(fields: seq<string>): Command
    requires fields != []
  {
    var word := fields[0];
    if word == "C2S_PREVIEW_STYLE" then WithValue(fields, PreviewValue(0, ValueOf(fields)))
    else if word == "C2S_PREVIEW_COLOR" then WithValue(fields, PreviewValue(1, ValueOf(fields)))
    else if word == "C2S_PREVIEW_FACIAL_HAIR" then WithValue(fields, PreviewValue(2, ValueOf(fields)))
    else if word == "C2S_PREVIEW_SKIN" then WithValue(fields, PreviewValue(3, ValueOf(fields)))
    else if word == "C2S_PREVIEW_FACE" then WithValue(fields, PreviewValue(4, ValueOf(fields)))
    else if word == "C2S_PREVIEW_HEIGHT" then WithValue(fields, PreviewHeight(ValueOf(fields)))
    else if word == "C2S_PURCHASE" then Buy
    else if word == "C2S_RESET" then Reset
    else if word == "C2S_CLOSE" then Close
    else Unknown
  }

  lemma FieldsMean(fields: seq<string>)
    requires fields != []
    ensures ParseFrom(fields, 0) == Meaning(fields)
  {
    hide Atoi;
    NextWord(fields, 0);
    NextWord(fields, 1);
    NextWord(fields, 2);
    NextWord(fields, 3);
    LastWords(fields);
    hide ParseFrom;
  }

  lemma NextWord(fields: seq<string>, k: nat)
    requires fields != [] && k < 4
    ensures ParseFrom(fields, k) == if fields[0] == PREVIEW_COMMANDS[k] then WithValue(fields, PreviewValue(k, ValueOf(fields)))
                                    else ParseFrom(fields, k + 1)
  {
    hide Atoi;
  }

  lemma LastWords(fields: seq<string>)
    requires fields != []
    ensures ParseFrom(fields, 4) ==
            if fields[0] == "C2S_PREVIEW_FACE" then WithValue(fields, PreviewValue(4, ValueOf(fields)))
            else if fields[0] == "C2S_PREVIEW_HEIGHT" then WithValue(fields, PreviewHeight(ValueOf(fields)))
            else if fields[0] == "C2S_PURCHASE" then Buy
            else if fields[0] == "C2S_RESET" then Reset
            else if fields[0] == "C2S_CLOSE" then Close
            else Unknown
  {
    hide Atoi;
  }

  /** A message is its prefix and the fields between semicolons; it means what its first field says. */
  lemma MessageMeans(fields: seq<string>)
    requires fields != [] && forall f :: f in fields ==> ';' !in f
    ensures PREFIX == "TW_BARBERSHOP\t" && PREFIX <= PREFIX + Join(fields)
    ensures Parse("TW_BARBERSHOP\t" + Join(fields)) == Meaning(fields)
  {
    var msg := PREFIX + Join(fields);
    assert msg[|PREFIX|..] == Join(fields);
    JoinIsExact(fields);
    FieldsMean(fields);
    hide ParseFrom, Join, Split, Meaning;
  }

  // ----- Numbers -----

  /** A number in decimal. */
  function NumberText(n: nat): (s: string)
    ensures s != [] && forall c :: c in s ==> '0' <= c <= '9'
  {
    if n < 10 then ["0123456789"[n]] else NumberText(n / 10) + ["0123456789"[n % 10]]
  }

  lemma {:induction false} NumberIs(n: nat)
    ensures Number(NumberText(n)) == n
  {
    var s := NumberText(n);
    if n < 10 {
      assert s[..0] == [];
    } else {
      assert s[..|s| - 1] == NumberText(n / 10);
      NumberIs(n / 10);
    }
  }

  lemma {:induction false} DigitsAre(s: string, rest: string)
    requires (forall c :: c in s ==> '0' <= c <= '9') && (rest == [] || !('0' <= rest[0] <= '9'))
    ensures Digits(s + rest) == s
  {
    if s == [] {
      assert s + rest == rest;
    } else {
      assert s[0] in s && (s + rest)[1..] == s[1..] + rest;
      assert forall c :: c in s[1..] ==> c in s;
      DigitsAre(s[1..], rest);
    }
  }

  /** A value is the number at the front of its field, with its sign, whatever comes after it. */
  lemma ValueIs(n: nat, rest: string)
    requires rest == [] || !('0' <= rest[0] <= '9')
    ensures Atoi(NumberText(n) + rest) == n && Atoi("-" + (NumberText(n) + rest)) == -(n as int)
    ensures Atoi("+" + (NumberText(n) + rest)) == n
  {
    var s := NumberText(n) + rest;
    NumberIs(n);
    DigitsAre(NumberText(n), rest);
    assert s[0] in NumberText(n);
    hide Number, Digits, NumberText;
    PlainAtoi(s);
    SignedAtoi('-', s);
    SignedAtoi('+', s);
  }

  lemma PlainAtoi(s: string)
    requires s != "" && '0' <= s[0] <= '9'
    ensures Atoi(s) == Number(Digits(s))
  {
    hide Number, Digits;
  }

  lemma SignedAtoi(sign: char, s: string)
    requires sign == '-' || sign == '+'
    ensures Atoi([sign] + s) == if sign == '-' then -(Number(Digits(s)) as int) else Number(Digits(s))
  {
    hide Number, Digits;
    assert ([sign] + s)[1..] == s;
  }

  lemma NoValue(s: string)
    requires s == [] || (!('0' <= s[0] <= '9') && s[0] !in " \t\n\r+-" && !('\t' <= s[0] <= '\r'))
    ensures Atoi(s) == 0
  {
  }

  lemma {:induction false} SpacesSkipped(spaces: string, s: string)
    requires forall c :: c in spaces ==> c == ' ' || c == '\t' || c == '\n' || c == '\U{000B}' || c == '\U{000C}' || c == '\r'
    ensures Atoi(spaces + s) == Atoi(s)
  {
    if spaces == "" {
      assert spaces + s == s;
    } else {
      assert spaces[0] in spaces && (spaces + s)[1..] == spaces[1..] + s && forall c :: c in spaces[1..] ==> c in spaces;
      SpacesSkipped(spaces[1..], s);
    }
  }

  // ----- What each word does -----

  /** What may be shown: what the player had before the session, or a number below the limit of race and gender. */
  predicate Offered(p: Player, s: Session, k: nat, value: int)
    requires s.original.Valid() && k < 5
  {
    0 <= value <= 255 && (value == s.original.values[k] || value < Limit(p.race, p.gender, k))
  }

  predicate HeightOffered(s: Session, value: int)
  {
    value == s.original.height || exists k :: 0 <= k <= 25 && value == 900 + 5 * k
  }

  /** With a session: the preview it is left with, if it is left at all, and what the client is told. */
  lemma CommandDoes(c: Prices, seat: Seat, command: Command)
    requires SeatOk(seat) && seat.session.Some?
    ensures var p, s, next := seat.p, seat.session.value, Handle(c, seat, command);
            match command
            case PreviewValue(k, v) =>
              var shown := if Offered(p, s, k, v) then s.preview.(values := s.preview.values[k := v]) else s.preview;
              && next.session == Some(s.(preview := shown)) && next.p.money == p.money && next.p.fields == p.fields
              && next.p.sent == p.sent + (if Offered(p, s, k, v) then [] else [Refused(4)])
                                + [Preview(Cost(c, p.level, s.original, shown), shown)]
            case PreviewHeight(v) =>
              var shown := if HeightOffered(s, v) then s.preview.(height := v) else s.preview;
              && next.session == Some(s.(preview := shown)) && next.p.money == p.money && next.p.fields == p.fields
              && next.p.sent == p.sent + (if HeightOffered(s, v) then [] else [Refused(4)])
                                + [Preview(Cost(c, p.level, s.original, shown), shown)]
            case Reset =>
              && next.session == Some(s.(preview := s.original)) && next.p.money == p.money && next.p.fields == p.fields
              && next.p.sent == p.sent + [Preview(Cost(c, p.level, s.original, s.original), s.original)]
            case Buy =>
              var cost := Cost(c, p.level, s.original, s.preview);
              if p.money < cost then next == seat.(p := p.(sent := p.sent + [Refused(2)]))
              else
                && next.session == Some(s.(original := s.preview)) && next.p.money == p.money - cost
                && ReadLook(next.p.fields) == s.preview && next.p.sent == p.sent + [Bought(s.preview)]
            case Close =>
              next.session == None && next.p.money == p.money && next.p.fields == p.fields && next.p.sent == p.sent + [Closed]
            case Incomplete => next == seat
            case Unknown => next == seat
  {
    var p, s := seat.p, seat.session.value;
    hide Cost, ShowLook, ReadLook, Limit, MovePreview;
    match command
    case PreviewValue(k, v) =>
      if Offered(p, s, k, v) { MoveOnly(p, s, s.preview.(values := s.preview.values[k := v])); }
    case PreviewHeight(v) =>
      HeightsAre(s.original, v);
      if HeightOffered(s, v) { MoveOnly(p, s, s.preview.(height := v)); }
    case Reset => MoveOnly(p, s, s.original);
    case Buy => BuyDoes(c, seat);
    case Close => ShowOnly(p, s.preview, s.original);
    case Incomplete =>
    case Unknown =>
  }

  lemma ShowOnly(p: Player, was: Look, look: Look)
    requires p.fields.Valid() && p.shown.Valid() && was.Valid() && look.Valid()
    ensures ShowLook(p, was, look) == p.(shown := ShowLook(p, was, look).shown)
  {
  }

  lemma MoveOnly(p: Player, s: Session, look: Look)
    requires p.fields.Valid() && p.shown.Valid() && SessionOk(s) && look.Valid()
    ensures var (q, t) := MovePreview(p, s, look); q == p.(shown := q.shown) && t == s.(preview := look)
  {
    ShowOnly(p, s.preview, look);
    hide ShowLook;
  }

  lemma BuyDoes(c: Prices, seat: Seat)
    requires SeatOk(seat) && seat.session.Some?
    ensures var p, s, next := seat.p, seat.session.value, Handle(c, seat, Buy);
            var cost := Cost(c, p.level, s.original, s.preview);
            if p.money < cost then next == seat.(p := p.(sent := p.sent + [Refused(2)]))
            else
              && next.session == Some(s.(original := s.preview)) && next.p.money == p.money - cost
              && ReadLook(next.p.fields) == s.preview && next.p.sent == p.sent + [Bought(s.preview)]
  {
    var p, s := seat.p, seat.session.value;
    BuyIs(c, seat);
    hide Cost, ReadLook, ApplyLook, Handle;
    var cost := Cost(c, p.level, s.original, s.preview);
    if p.money >= cost {
      AppliedIs(p.(money := p.money - cost), s.preview);
      ApplyOnly(p.(money := p.money - cost), s.preview);
    }
  }

  lemma HeightsAre(original: Look, value: int)
    ensures IsHeightAllowed(original, value) <==>
            value == original.height || exists k :: 0 <= k <= 25 && value == 900 + 5 * k
  {
    if IsSoldHeight(value) {
      var k := (value - 900) / 5;
      assert 0 <= k <= 25 && value == 900 + 5 * k;
    }
  }

  /** Without a session every word but the one that closes it is refused. */
  lemma NothingOpen(c: Prices, seat: Seat, command: Command)
    requires SeatOk(seat) && seat.session.None?
    ensures Handle(c, seat, command) == if command == Close then seat else seat.(p := seat.p.(sent := seat.p.sent + [Refused(1)]))
  {
  }

  /** A session opens on the look the player has, for somebody fit who has none yet. */
  lemma OpeningDoes(c: Prices, seat: Seat, condition: Condition, chair: nat)
    requires SeatOk(seat)
    ensures var next := Next(c, seat, Open(condition, chair));
            if !seat.p.online || condition == Unfit || (condition == Fit && seat.session.Some?) then next == seat
            else if condition == Transformed then next == seat.(p := seat.p.(sent := seat.p.sent + [NotInThisForm]))
            else
              var look := ReadLook(seat.p.fields);
              next == Seat(seat.p.(sent := seat.p.sent + [Opened(look)]), Some(Session(chair, look, look)))
  {
  }

  /** Words count from those online only; logging in brings the real look, and logging out ends a session without a word. */
  lemma ComingAndGoing(c: Prices, seat: Seat, command: Command, level: nat, gain: int)
    requires SeatOk(seat)
    ensures Next(c, seat, Message(command)) == if seat.p.online then Handle(c, seat, command) else seat
    ensures Next(c, seat, Login) == if seat.p.online then seat else seat.(p := seat.p.(online := true, shown := seat.p.fields))
    ensures Next(c, seat, Logout) == Seat(seat.p.(online := false), None)
    ensures Next(c, seat, Elsewhere(level, gain))
         == if seat.p.money + gain < 0 then seat else seat.(p := seat.p.(level := level, money := seat.p.money + gain))
    ensures Next(c, seat, Update(true)) == seat && (seat.session.None? ==> Next(c, seat, Update(false)) == seat)
    ensures seat.session.Some? ==> Next(c, seat, Update(false)) == Handle(c, seat, Close)
  {
    hide ShowLook;
  }

  /** Of what everyone sees, the client is sent what has changed. */
  lemma ApplyTells(p: Player, look: Look)
    requires p.fields.Valid() && p.shown.Valid() && look.Valid()
    ensures var q := ApplyLook(p, look);
            && (q.fields.bytes != p.fields.bytes ==> q.shown.bytes == q.fields.bytes)
            && (q.fields.bytes == p.fields.bytes ==> q.shown.bytes == p.shown.bytes)
            && (q.fields.bytes2 != p.fields.bytes2 ==> q.shown.bytes2 == q.fields.bytes2)
            && (q.fields.bytes2 == p.fields.bytes2 ==> q.shown.bytes2 == p.shown.bytes2)
            && (look.height != ReadLook(p.fields).height ==>
                  q.shown.scale == q.fields.scale == look.height as real / 1000.0)
            && (look.height == ReadLook(p.fields).height ==> q.shown.scale == p.shown.scale && q.fields.scale == p.fields.scale)
            && q.fields.bytes2[1..] == p.fields.bytes2[1..]
  {
    HeightRoundTrip(look.height);
    BytesOf(p.fields, look.values);
    BytesOf(p.fields.(scale := look.height as real / 1000.0), look.values);
  }

  lemma BytesOf(a: Appearance, values: seq<Bytes.byte>)
    requires a.Valid() && |values| == 5
    ensures var b := WithBytes(a, values, 5);
            b.bytes == [values[3], values[4], values[0], values[1]] && b.bytes2 == [values[2]] + a.bytes2[1..]
  {
    var b1 := WithBytes(a, values, 1);
    var b2 := WithBytes(a, values, 2);
    var b3 := WithBytes(a, values, 3);
    var b4 := WithBytes(a, values, 4);
    assert WithBytes(a, values, 0) == a;
    assert b1 == WithByte(a, 0, values[0]) && b2 == WithByte(b1, 1, values[1]);
    assert b3 == WithByte(b2, 2, values[2]) && b4 == WithByte(b3, 3, values[3]);
    assert WithBytes(a, values, 5) == WithByte(b4, 4, values[4]);
    hide WithBytes;
  }

  /** Where the parts of a look are: skin, face, style and colour in the one field, facial hair in the other. */
  lemma LookIs(a: Appearance)
    requires a.Valid()
    ensures ReadLook(a).values == [a.bytes[2], a.bytes[3], a.bytes2[0], a.bytes[0], a.bytes[1]]
    ensures ReadLook(a).height == (a.scale * 1000.0 + 0.5).Floor
  {
    var v := ReadLook(a).values;
    assert v == [v[0], v[1], v[2], v[3], v[4]];
  }

  // ----- Prices -----

  function Capped(price: nat): nat
  {
    if price > 2147483646 then 2147483646 else price
  }

  /** A change of one part alone costs its own percentage of the base for the level. */
  lemma PriceOfOneChange(c: Prices, level: nat, from: Look, k: nat, v: Bytes.byte)
    requires from.Valid() && NoOverflow(c, level) && k < 5 && v != from.values[k]
    ensures Cost(c, level, from, from.(values := from.values[k := v]))
            == Capped(level * level * c.base * [c.style, c.color, c.facial, c.skin, c.face][k] / 100)
  {
    var to := from.(values := from.values[k := v]);
    assert Percent(c, from, to) == [c.style, c.color, c.facial, c.skin, c.face][k];
    PlainCost(c, level, from, to);
    hide Percent, HairPercent, Cost, NoOverflow;
  }

  lemma PriceOfHeight(c: Prices, level: nat, from: Look, h: nat)
    requires from.Valid() && NoOverflow(c, level) && h < 65536 && h != from.height
    ensures Cost(c, level, from, from.(height := h)) == Capped(level * level * c.base * c.height / 100)
  {
    PlainCost(c, level, from, from.(height := h));
  }

  /** The percentages of all that differs, a colour being free with a new style. */
  function Charged(c: Prices, from: Look, to: Look): nat
    requires from.Valid() && to.Valid()
  {
    (if from.values[0] != to.values[0] then c.style else if from.values[1] != to.values[1] then c.color else 0)
    + (if from.values[2] != to.values[2] then c.facial else 0)
    + (if from.values[3] != to.values[3] then c.skin else 0)
    + (if from.values[4] != to.values[4] then c.face else 0)
    + (if from.height != to.height then c.height else 0)
  }

  /** Several changes cost the sum of their percentages of the base for the level. */
  lemma PriceIs(c: Prices, level: nat, from: Look, to: Look)
    requires from.Valid() && to.Valid() && NoOverflow(c, level)
    ensures Cost(c, level, from, to) == Capped(level * level * c.base * Charged(c, from, to) / 100)
  {
    PlainCost(c, level, from, to);
    assert Percent(c, from, to) == Charged(c, from, to);
    hide Cost, NoOverflow, Percent, Charged;
  }

  /** With the default settings a new style costs 5 copper at level 1, 500 at 10, 8000 at 40 and 18000 at 60. */
  lemma DefaultPrices(from: Look, v: Bytes.byte)
    requires from.Valid() && v != from.values[0]
    ensures var c, to := Prices(5, 100, 50, 75, 75, 75, 75), from.(values := from.values[0 := v]);
            && Cost(c, 1, from, to) == 5 && Cost(c, 10, from, to) == 500
            && Cost(c, 40, from, to) == 8000 && Cost(c, 60, from, to) == 18000
  {
    var c := Prices(5, 100, 50, 75, 75, 75, 75);
    PriceOfOneChange(c, 1, from, 0, v);
    PriceOfOneChange(c, 10, from, 0, v);
    PriceOfOneChange(c, 40, from, 0, v);
    PriceOfOneChange(c, 60, from, 0, v);
    hide Cost;
  }

  // ----- Limits -----

  /** How many styles, colours, facial features, skins and faces a race has. */
  function LimitsOf(race: nat, gender: nat): seq<Bytes.byte>
  {
    [Limit(race, gender, 0), Limit(race, gender, 1), Limit(race, gender, 2), Limit(race, gender, 3), Limit(race, gender, 4)]
  }

  /** The ten races, man and woman; nobody else has any. */
  lemma LimitsAre(race: nat, gender: nat)
    ensures LimitsOf(1, 0) == [17, 10, 9, 10, 12] && LimitsOf(1, 1) == [26, 10, 7, 10, 15]
    ensures LimitsOf(2, 0) == [13, 8, 11, 9, 10] && LimitsOf(2, 1) == [14, 8, 7, 9, 9]
    ensures LimitsOf(3, 0) == [17, 10, 21, 14, 10] && LimitsOf(3, 1) == [19, 10, 6, 14, 10]
    ensures LimitsOf(4, 0) == [12, 10, 14, 11, 10] && LimitsOf(4, 1) == [12, 10, 10, 11, 9]
    ensures LimitsOf(5, 0) == [16, 11, 17, 6, 10] && LimitsOf(5, 1) == [17, 11, 8, 6, 10]
    ensures race !in {1, 2, 3, 4, 5, 6, 7, 8, 9, 10} || gender >= 2 ==> LimitsOf(race, gender) == [0, 0, 0, 0, 0]
  {
  }

  lemma MoreLimits()
    ensures LimitsOf(6, 0) == [13, 9, 9, 20, 5] && LimitsOf(6, 1) == [12, 9, 7, 12, 4]
    ensures LimitsOf(7, 0) == [12, 10, 12, 6, 7] && LimitsOf(7, 1) == [12, 10, 7, 6, 7]
    ensures LimitsOf(8, 0) == [10, 10, 14, 12, 5] && LimitsOf(8, 1) == [10, 10, 10, 12, 6]
    ensures LimitsOf(9, 0) == [14, 5, 10, 3, 4] && LimitsOf(9, 1) == [17, 5, 5, 3, 6]
    ensures LimitsOf(10, 0) == [16, 16, 11, 11, 10] && LimitsOf(10, 1) == [20, 16, 11, 11, 10]
  {
  }
}
