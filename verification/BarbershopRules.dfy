/** What the barbershop sells: looks, what is allowed, and what it costs. */
module BarbershopRules {
  import opened Bytes

  // ----- Looks -----

  const STYLE := 0
  const COLOR := 1
  const FACIAL := 2
  const SKIN := 3
  const FACE := 4
  const CUSTOMIZATIONS := 5

  /** The five appearance bytes and the height in thousandths of the race's own scale. */
  datatype Look = Look(values: seq<byte>, height: nat) {
    predicate Valid()
    {
      |values| == CUSTOMIZATIONS && height < 65536
    }
  }

  const LIMITS: seq<seq<(byte, byte)>> := [
    [(0, 0), (17, 26), (13, 14), (17, 19), (12, 12), (16, 17), (13, 12), (12, 12), (10, 10), (14, 17), (16, 20)],
    [(0, 0), (10, 10), (8, 8), (10, 10), (10, 10), (11, 11), (9, 9), (10, 10), (10, 10), (5, 5), (16, 16)],
    [(0, 0), (9, 7), (11, 7), (21, 6), (14, 10), (17, 8), (9, 7), (12, 7), (14, 10), (10, 5), (11, 11)],
    [(0, 0), (10, 10), (9, 9), (14, 14), (11, 11), (6, 6), (20, 12), (6, 6), (12, 12), (3, 3), (11, 11)],
    [(0, 0), (12, 15), (10, 9), (10, 10), (10, 9), (10, 10), (5, 4), (7, 7), (5, 6), (4, 6), (10, 10)]
  ]

  function Limit(race: nat, gender: nat, customization: nat): byte
    requires customization < CUSTOMIZATIONS
  {
    if race >= 11 || gender >= 2 then 0
    else if gender == 0 then LIMITS[customization][race].0 else LIMITS[customization][race].1
  }

  predicate IsAllowed(race: nat, gender: nat, original: Look, customization: nat, value: byte)
    requires original.Valid() && customization < CUSTOMIZATIONS
  {
    value == original.values[customization] || value < Limit(race, gender, customization)
  }

  predicate IsSoldHeight(height: int)
  {
    900 <= height <= 1025 && (height - 900) % 5 == 0
  }

  predicate IsHeightAllowed(original: Look, height: int)
  {
    height == original.height || IsSoldHeight(height)
  }

  predicate AllAllowed(race: nat, gender: nat, original: Look, look: Look)
    requires original.Valid() && look.Valid()
  {
    && IsHeightAllowed(original, look.height)
    && forall c :: 0 <= c < CUSTOMIZATIONS ==> IsAllowed(race, gender, original, c, look.values[c])
  }

  // ----- Prices -----

  /** Percentages of the base price, and the base itself. */
  datatype Prices = Prices(base: nat, style: nat, color: nat, facial: nat, skin: nat, face: nat, height: nat)

  const MAX_MONEY: nat := 0x7fff_ffff - 1

  /** A new style includes its colour. */
  function HairPercent(c: Prices, from: Look, to: Look): nat
    requires from.Valid() && to.Valid()
  {
    if to.values[STYLE] != from.values[STYLE] then c.style
    else if to.values[COLOR] != from.values[COLOR] then c.color
    else 0
  }

  function Percent(c: Prices, from: Look, to: Look): nat
    requires from.Valid() && to.Valid()
  {
    HairPercent(c, from, to)
    + (if to.values[FACIAL] != from.values[FACIAL] then c.facial else 0)
    + (if to.values[SKIN] != from.values[SKIN] then c.skin else 0)
    + (if to.values[FACE] != from.values[FACE] then c.face else 0)
    + (if to.height != from.height then c.height else 0)
  }

  function Min(a: nat, b: nat): nat
  {
    if a < b then a else b
  }

  /** The price of a change, with the products taken in 64 bits and the result capped. */
  function Cost(c: Prices, level: nat, from: Look, to: Look): (copper: nat)
    requires from.Valid() && to.Valid()
    ensures copper <= MAX_MONEY
  {
    var base := level * level * c.base % TWO_64;
    Min(base * Percent(c, from, to) % TWO_64 / 100, MAX_MONEY)
  }

  /** No product leaves the 64 bits. */
  predicate NoOverflow(c: Prices, level: nat)
  {
    level * level * c.base * (c.style + c.color + c.facial + c.skin + c.face + c.height) < TWO_64
  }

  lemma PlainCost(c: Prices, level: nat, from: Look, to: Look)
    requires from.Valid() && to.Valid() && NoOverflow(c, level)
    ensures Cost(c, level, from, to) == Min(level * level * c.base * Percent(c, from, to) / 100, MAX_MONEY)
  {
    var b, all, p := level * level * c.base, c.style + c.color + c.facial + c.skin + c.face + c.height, Percent(c, from, to);
    if all == 0 {
      assert p == 0;
    } else {
      Times(b, 1, all);
      Times(b, p, all);
      assert b % TWO_64 == b;
      assert b * p % TWO_64 == b * p;
    }
  }

  lemma Times(b: nat, p: nat, q: nat)
    requires p <= q
    ensures b * p <= b * q
  {
  }

  lemma HairTriangle(c: Prices, x: Look, y: Look, z: Look)
    requires x.Valid() && y.Valid() && z.Valid() && c.color <= 2 * c.style
    ensures HairPercent(c, x, z) <= HairPercent(c, x, y) + HairPercent(c, y, z)
  {
  }

  lemma PercentTriangle(c: Prices, x: Look, y: Look, z: Look)
    requires x.Valid() && y.Valid() && z.Valid() && c.color <= 2 * c.style
    ensures Percent(c, x, z) <= Percent(c, x, y) + Percent(c, y, z)
  {
    HairTriangle(c, x, y, z);
  }

  /** A detour saves at most the copper lost to rounding. */
  lemma CostTriangle(c: Prices, level: nat, x: Look, y: Look, z: Look)
    requires x.Valid() && y.Valid() && z.Valid() && NoOverflow(c, level) && c.color <= 2 * c.style
    ensures Cost(c, level, x, z) <= Cost(c, level, x, y) + Cost(c, level, y, z) + 1
  {
    hide Cost, Percent, HairPercent;
    PlainCost(c, level, x, y);
    PlainCost(c, level, y, z);
    PlainCost(c, level, x, z);
    PercentTriangle(c, x, y, z);
    var b := level * level * c.base;
    var p, q, r := Percent(c, x, y), Percent(c, y, z), Percent(c, x, z);
    Times(b, r, p + q);
    assert b * (p + q) == b * p + b * q;
    Halves(b * p, b * q, b * r);
  }

  lemma Halves(p: nat, q: nat, r: nat)
    requires r <= p + q
    ensures Min(r / 100, MAX_MONEY) <= Min(p / 100, MAX_MONEY) + Min(q / 100, MAX_MONEY) + 1
  {
  }

  /** The looks a character has in turn, one purchase between each and the next. */
  predicate Looks(path: seq<Look>)
  {
    forall i :: 0 <= i < |path| ==> path[i].Valid()
  }

  function PathCost(c: Prices, level: nat, path: seq<Look>): nat
    requires Looks(path)
  {
    if |path| < 2 then 0 else Cost(c, level, path[0], path[1]) + PathCost(c, level, path[1..])
  }

  /** Buying in k steps costs at least the direct price less k - 1 copper. */
  lemma {:induction false} NoCheaperWay(c: Prices, level: nat, path: seq<Look>)
    requires Looks(path) && |path| >= 2 && NoOverflow(c, level) && c.color <= 2 * c.style
    ensures PathCost(c, level, path) + |path| - 2 >= Cost(c, level, path[0], path[|path| - 1])
    decreases |path|
  {
    hide Cost, NoOverflow;
    var rest := path[1..];
    if |path| == 2 {
      assert rest == [path[1]];
    } else {
      NoCheaperWay(c, level, rest);
      CostTriangle(c, level, path[0], path[1], path[|path| - 1]);
    }
  }

  /** With a dearer colour, changing the style there and back changes the colour for less, and by more than the rounding. */
  lemma DearColourIsCheapened(c: Prices, level: nat, v: seq<byte>, s: byte, k: byte, h: nat)
    requires |v| == CUSTOMIZATIONS && h < 65536 && s != v[STYLE] && k != v[COLOR]
    requires NoOverflow(c, level) && c.color > 2 * c.style
    requires level * level * c.base >= 200 && level * level * c.base * c.color <= 100 * MAX_MONEY
    ensures var a, b, d := Look(v, h), Look(v[STYLE := s], h), Look(v[COLOR := k], h);
            PathCost(c, level, [a, b, d]) + |[a, b, d]| - 2 < Cost(c, level, a, d)
  {
    var a, b, d := Look(v, h), Look(v[STYLE := s], h), Look(v[COLOR := k], h);
    assert Percent(c, a, b) == c.style && Percent(c, b, d) == c.style && Percent(c, a, d) == c.color;
    PlainCost(c, level, a, b);
    PlainCost(c, level, b, d);
    PlainCost(c, level, a, d);
    PathOfThree(c, level, a, b, d);
    DearFloors(level * level * c.base, c.style, c.color);
    hide Percent, HairPercent, NoOverflow, Cost, PathCost;
  }

  lemma DearFloors(m: nat, style: nat, color: nat)
    requires m >= 200 && color > 2 * style && m * color <= 100 * MAX_MONEY
    ensures Min(m * style / 100, MAX_MONEY) + Min(m * style / 100, MAX_MONEY) + 1 < Min(m * color / 100, MAX_MONEY)
  {
    var x, y := m * style, m * color;
    Times(m, 2 * style + 1, color);
    assert m * (2 * style + 1) == x + x + m;
    TwoFloors(x, m, y);
  }

  lemma PathOfThree(c: Prices, level: nat, x: Look, y: Look, z: Look)
    requires x.Valid() && y.Valid() && z.Valid()
    ensures PathCost(c, level, [x, y, z]) == Cost(c, level, x, y) + Cost(c, level, y, z)
  {
    assert [x, y, z][1..] == [y, z] && [y, z][1..] == [z];
    assert PathCost(c, level, [y, z]) == Cost(c, level, y, z) + PathCost(c, level, [y, z][1..]);
  }

  lemma TwoFloors(x: nat, m: nat, y: nat)
    requires m >= 200 && y >= x + x + m && y / 100 <= MAX_MONEY
    ensures Min(x / 100, MAX_MONEY) + Min(x / 100, MAX_MONEY) + 1 < Min(y / 100, MAX_MONEY)
  {
  }

  /** No detour saves more than the copper lost to rounding, at any level and base price at which nothing overflows. */
  ghost predicate NoDetourPays(c: Prices)
  {
    forall base: nat, level: nat, x: Look, y: Look, z: Look ::
      x.Valid() && y.Valid() && z.Valid() && NoOverflow(c.(base := base), level) ==>
        Cost(c.(base := base), level, x, z)
        <= Cost(c.(base := base), level, x, y) + Cost(c.(base := base), level, y, z) + 1
  }

  /** The settings are 32-bit numbers. */
  predicate Configured(c: Prices)
  {
    c.style < TWO_32 && c.color < TWO_32 && c.facial < TWO_32 && c.skin < TWO_32 && c.face < TWO_32 && c.height < TWO_32
  }

  /** Short of the money cap, what makes detours pay is exactly a colour dearer than two styles. */
  lemma DetoursPayIff(c: Prices)
    requires Configured(c) && 2 * c.color <= MAX_MONEY
    ensures NoDetourPays(c) <==> c.color <= 2 * c.style
  {
    if c.color <= 2 * c.style {
      forall base: nat, level: nat, x: Look, y: Look, z: Look
        | x.Valid() && y.Valid() && z.Valid() && NoOverflow(c.(base := base), level)
        ensures Cost(c.(base := base), level, x, z)
                <= Cost(c.(base := base), level, x, y) + Cost(c.(base := base), level, y, z) + 1
      {
        CostTriangle(c.(base := base), level, x, y, z);
      }
    } else {
      hide Cost;
      var at, v := c.(base := 200), [0, 0, 0, 0, 0];
      var a, b, d := Look(v, 1000), Look(v[STYLE := 1], 1000), Look(v[COLOR := 1], 1000);
      DearColourIsCheapened(at, 1, v, 1, 1, 1000);
      PathOfThree(at, 1, a, b, d);
    }
  }
}
