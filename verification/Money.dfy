/**
 * The AI Exchange's money (src/cost.js): integer nano-USD, every charge rounded up. How much rounding can add is proved
 * for each way charges are combined.
 *
 * BigInt division truncates toward zero; token counts and probabilities are reals.
 */
module Money {
  import opened Prelude

  datatype Result<+T> = Ok(value: T) | Bad

  // -- Amounts on the wire ----------------------------------------------------

  /** What nanoUsd may be given. `NotFinite` is NaN or an infinity. */
  datatype Amount = Absent | Big(n: int) | Num(x: real) | NotFinite | Str(s: string)

  function NanoUsd(a: Amount): Result<int> {
    match a
    case Absent => Ok(0)
    case Big(n) => Ok(n)
    case Num(x) => if x == x.Floor as real then Ok(x.Floor) else Bad
    case NotFinite => Bad
    case Str(s) =>
      if s == "" then Ok(0)
      else
        var t := Trim(s);
        if t != "" && IsNumber(t) then Ok(Number(t)) else Bad
  }

  /** formatNanoUsd: the decimal string. */
  function Format(n: int): string { if n < 0 then "-" + Decimal(-n) else Decimal(n) }

  lemma NumbersAreTrim(s: string)
    requires s != "" && IsNumber(s)
    ensures Trim(s) == s
  {
    assert '0' <= s[0] <= '9' && '0' <= s[|s| - 1] <= '9';
  }

  /**
   * The wire form of an amount reads back as that amount exactly when it is not negative; a negative one is refused,
   * though not when it comes as a bigint or a number.
   */
  lemma WireRoundTrip(n: int)
    ensures NanoUsd(Str(Format(n))) == Ok(n) <==> n >= 0
    ensures n < 0 ==> NanoUsd(Str(Format(n))).Bad?
    ensures NanoUsd(Big(n)) == NanoUsd(Num(n as real)) == Ok(n)
  {
    if n >= 0 {
      NumbersAreTrim(Decimal(n));
      DecimalRoundTrip(n);
    } else {
      var s := Format(n);
      assert s[0] == '-' && s[|s| - 1] == Decimal(-n)[|Decimal(-n)| - 1];
      assert TrimStart(s) == s && TrimEnd(s) == s;
      assert !IsNumber(s);
    }
  }

  /**
   * What is an amount: a bigint, a whole number, or a text that is empty or nothing but decimal digits between white
   * space. What is missing is 0; everything else is refused.
   */
  lemma AmountIs(a: Amount)
    ensures
      match a
      case Absent => NanoUsd(a) == Ok(0)
      case Big(n) => NanoUsd(a) == Ok(n)
      case Num(x) => if exists n: int :: IsInteger(x, n) then forall n :: IsInteger(x, n) ==> NanoUsd(a) == Ok(n)
                     else NanoUsd(a).Bad?
      case NotFinite => NanoUsd(a).Bad?
      case Str(s) => if s == "" then NanoUsd(a) == Ok(0)
                     else if Trim(s) != "" && forall i :: 0 <= i < |Trim(s)| ==> '0' <= Trim(s)[i] <= '9' then
                       NanoUsd(a) == Ok(Number(Trim(s)))
                     else NanoUsd(a).Bad?
  {
    if a.Num? {
      assert a.x == a.x.Floor as real ==> IsInteger(a.x, a.x.Floor);
    }
  }

  ghost predicate IsInteger(x: real, n: int) { x == n as real }

  // -- Rounding up ------------------------------------------------------------

  /** BigInt division: toward zero. */
  function Trunc(a: int, d: int): int
    requires d > 0
  {
    if a >= 0 then a / d else -((-a) / d)
  }

  /** (a + d - 1) / d as the code writes it. */
  function RoundUp(a: int, d: int): int
    requires d > 0
  {
    Trunc(a + d - 1, d)
  }

  /** c is the least integer that is at least a / d. */
  ghost predicate IsCeiling(c: int, a: int, d: int) { c * d >= a > (c - 1) * d }

  lemma DivideDown(a: int, d: int)
    requires d > 0
    ensures (a / d) * d <= a < (a / d) * d + d
  {
  }

  lemma CeilingUnique(b: int, c: int, a: int, d: int)
    requires d > 0 && IsCeiling(b, a, d) && IsCeiling(c, a, d)
    ensures b == c
  {
    if b < c { Ordered(b, c - 1, d); }
    if c < b { Ordered(c, b - 1, d); }
  }

  lemma Ordered(b: int, c: int, d: int)
    requires b <= c && d >= 0
    ensures b * d <= c * d
  {
    assert (c - b) * d >= 0;
  }

  lemma RoundUpIsCeiling(a: int, d: int)
    requires d > 0 && a >= 0
    ensures IsCeiling(RoundUp(a, d), a, d)
  {
    DivideDown(a + d - 1, d);
    var q := (a + d - 1) / d;
    assert (q - 1) * d == q * d - d;
  }

  /** The exact condition: for amounts below zero the written division is a ceiling only at one remainder. */
  lemma RoundsUpIff(a: int, d: int)
    requires d > 0
    ensures IsCeiling(RoundUp(a, d), a, d) <==> a > -d || a % d == 1 % d
  {
    if a >= 0 {
      RoundUpIsCeiling(a, d);
    } else if a > -d {
      SmallQuotient(a + d - 1, d);
    } else {
      var m := (-(a + d - 1)) / d;
      FarBelow(a, d, m);
      if a == -(m * d) - d + 1 {
        Spread(m, d);
        RemainderIs(a, -(m + 1), 1 % d, d);
      } else if a % d == 1 % d {
        Remainder(a, d, m);
      }
    }
  }

  /**
   * What the code computes is -m, and a lies in (-(m + 2) d + 1, -(m + 1) d + 1]: only the upper end is rounded up
   * right.
   */
  lemma FarBelow(a: int, d: int, m: int)
    requires d > 0 && a <= -d && m == (-(a + d - 1)) / d
    ensures -(m * d) - 2 * d + 1 < a <= -(m * d) - d + 1
    ensures IsCeiling(RoundUp(a, d), a, d) <==> a == -(m * d) - d + 1
  {
    DivideDown(-(a + d - 1), d);
    Spread(m, d);
    assert RoundUp(a, d) == -m;
  }

  lemma Remainder(a: int, d: int, m: int)
    requires d > 0 && -(m * d) - 2 * d + 1 < a <= -(m * d) - d + 1 && a % d == 1 % d
    ensures a == -(m * d) - d + 1
  {
    if d > 1 {
      DivideDown(a, d);
      Spread(m, d);
      Between(a / d, m, d);
    }
  }

  lemma Spread(m: int, d: int)
    ensures (m + 1) * d == m * d + d && (m + 2) * d == m * d + 2 * d && (-m) * d == -(m * d)
    ensures (-m - 1) * d == -(m * d) - d
    ensures (-(m + 1)) * d == -((m + 1) * d)
  {
  }

  lemma RemainderIs(a: int, q: int, r: int, d: int)
    requires d > 0 && 0 <= r < d && (a == q * d + r || (d == 1 && r == 0))
    ensures a % d == r
  {
    if d > 1 {
      var e := a / d;
      assert a == e * d + a % d;
      if e < q { Ordered(e + 1, q, d); Spread(e, d); }
      if q < e { Ordered(q + 1, e, d); Spread(q, d); }
    }
  }

  /** No multiple of d lies strictly between two neighbouring ones. */
  lemma Between(q: int, m: int, d: int)
    requires d > 0 && -((m + 2) * d) < q * d <= -((m + 1) * d)
    ensures q == -(m + 1)
  {
    Spread(m, d);
    if q <= -(m + 2) { Ordered(q, -(m + 2), d); Spread(m + 1, d); }
    if q >= -m { Ordered(-m, q, d); }
  }

  lemma SmallQuotient(a: int, d: int)
    requires 0 <= a < d
    ensures a / d == 0
  {
  }

  lemma CeilingIsLeast(c: int, e: int, a: int, d: int)
    requires d > 0 && IsCeiling(c, a, d) && e * d >= a
    ensures c <= e
  {
    if e < c { Ordered(e, c - 1, d); }
  }

  // -- Charges ----------------------------------------------------------------

  const MILLION := 1000000
  const NANO := 1000000000

  /** A token count: Math.max(0, Math.floor(Number(tokens) || 0)); None is a value that is not a number. */
  function Count(tokens: Option<real>): (t: nat) {
    if tokens.None? || tokens.value < 0.0 then 0 else tokens.value.Floor
  }

  function Charge(t: nat, rate: int): int { if t == 0 || rate == 0 then 0 else RoundUp(t * rate, MILLION) }

  function ChargeTokens(tokens: Option<real>, rate: Amount): Result<int> {
    var r := NanoUsd(rate);
    if r.Bad? then Bad else Ok(Charge(Count(tokens), r.value))
  }

  /** A charge is never below the exact price and less than one nano-USD above it; a million times over, in integers. */
  lemma ChargeRoundsUp(t: nat, rate: nat)
    ensures Charge(t, rate) >= 0 && 0 <= Charge(t, rate) * MILLION - t * rate < MILLION
  {
    var p := t * rate;
    assert p >= 0;
    if t == 0 || rate == 0 {
      assert p == 0;
    } else {
      RoundUpIsCeiling(p, MILLION);
    }
  }

  function Total(counts: seq<nat>): nat
    decreases |counts|
  {
    if counts == [] then 0 else Total(counts[..|counts| - 1]) + counts[|counts| - 1]
  }

  function Charged(counts: seq<nat>, rate: nat): int
    decreases |counts|
  {
    if counts == [] then 0 else Charged(counts[..|counts| - 1], rate) + Charge(counts[|counts| - 1], rate)
  }

  lemma SplitOnce(a: nat, b: nat, rate: nat)
    ensures Charge(a + b, rate) <= Charge(a, rate) + Charge(b, rate) <= Charge(a + b, rate) + 1
  {
    ChargeRoundsUp(a, rate);
    ChargeRoundsUp(b, rate);
    ChargeRoundsUp(a + b, rate);
    assert (a + b) * rate == a * rate + b * rate;
  }

  /** Splitting tokens over n charges never costs less, and at most n - 1 nano-USD more. */
  lemma {:induction false} SplittingCosts(counts: seq<nat>, rate: nat)
    requires counts != []
    ensures Charge(Total(counts), rate) <= Charged(counts, rate) <= Charge(Total(counts), rate) + |counts| - 1
    decreases |counts|
  {
    var (front, t) := (counts[..|counts| - 1], counts[|counts| - 1]);
    if front != [] {
      SplittingCosts(front, rate);
      SplitOnce(Total(front), t, rate);
    } else {
      assert Charged(front, rate) == 0 && Total(front) == 0;
    }
  }

  /** The bound is reached: n charges of one token at the lowest rate cost n, one charge of n tokens costs 1. */
  lemma {:induction false} SplittingIsTight(n: nat)
    requires 1 <= n <= MILLION
    ensures Charged(seq(n, i => 1), 1) == n && Total(seq(n, i => 1)) == n && Charge(n, 1) == 1
    decreases n
  {
    var s := seq(n, i => 1 as nat);
    assert s[..n - 1] == seq(n - 1, i => 1 as nat);
    ChargeRoundsUp(1, 1);
    ChargeRoundsUp(n, 1);
    if n > 1 {
      SplittingIsTight(n - 1);
    } else {
      assert s[..0] == [];
    }
  }

  // -- The expected cost of a request -----------------------------------------

  datatype Class = Input | CachedRead | CacheWrite | Output

  const CLASSES := [Input, CachedRead, CacheWrite, Output]

  /**
   * The flat rates of a retail rate, the nested ones of a settlement rate, and the fee; an amount that is missing is
   * not in the map.
   */
  datatype Rates = Rates(flat: map<Class, Amount>, nested: map<Class, Amount>, fee: Amount)

  /** Token counts by class, and the short name of the input count. */
  datatype Usage = Usage(tokens: map<Class, Option<real>>, input: Option<real>)

  function RateFor(r: Rates, c: Class): Amount {
    if c in r.flat && r.flat[c] != Absent then r.flat[c]
    else if c in r.nested && r.nested[c] != Absent then r.nested[c] else Big(0)
  }

  function TokensOf(u: Usage, c: Class): Option<real> {
    if c in u.tokens then u.tokens[c] else if c == Input then u.input else Some(0.0)
  }

  /** The counts and rates of the classes when every rate is an amount. */
  function SumOf(u: Usage, r: Rates, classes: seq<Class>): Result<int>
    decreases |classes|
  {
    if classes == [] then Ok(0)
    else
      var before := SumOf(u, r, classes[..|classes| - 1]);
      var c := classes[|classes| - 1];
      var charge := ChargeTokens(TokensOf(u, c), RateFor(r, c));
      if before.Bad? || charge.Bad? then Bad else Ok(before.value + charge.value)
  }

  function Expected(u: Usage, r: Rates): Result<int> {
    var (sum, fee) := (SumOf(u, r, CLASSES), NanoUsd(r.fee));
    if sum.Bad? || fee.Bad? then Bad else Ok(sum.value + fee.value)
  }

  /** expectedCostNano: the four classes one by one, then the fee; the first malformed amount ends it. */
  method ExpectedCostNano(u: Usage, r: Rates) returns (cost: Result<int>)
    ensures cost == Expected(u, r)
  {
    var total := 0;
    var i := 0;
    while i < |CLASSES|
      invariant 0 <= i <= |CLASSES|
      invariant SumOf(u, r, CLASSES[..i]) == Ok(total)
    {
      var c := CLASSES[i];
      TakeSnoc(CLASSES, i);
      var charge := ChargeTokens(TokensOf(u, c), RateFor(r, c));
      if charge.Bad? {
        BadStays(u, r, i + 1, |CLASSES|);
        assert CLASSES[..|CLASSES|] == CLASSES;
        return Bad;
      }
      total := total + charge.value;
      i := i + 1;
    }
    assert CLASSES[..i] == CLASSES;
    var fee := NanoUsd(r.fee);
    if fee.Bad? { return Bad; }
    return Ok(total + fee.value);
  }

  lemma {:induction false} BadStays(u: Usage, r: Rates, i: nat, j: nat)
    requires i <= j <= |CLASSES| && SumOf(u, r, CLASSES[..i]).Bad?
    ensures SumOf(u, r, CLASSES[..j]).Bad?
    decreases j
  {
    if i < j {
      BadStays(u, r, i, j - 1);
      assert CLASSES[..j][..j - 1] == CLASSES[..j - 1];
    }
  }

  /** An amount is given. */
  predicate Listed(rates: map<Class, Amount>, c: Class) { c in rates && rates[c] != Absent }

  /** What a million tokens of a class cost: the flat rate, else the nested one, else nothing. */
  ghost predicate IsRate(r: Rates, c: Class, rate: int) {
    && (Listed(r.flat, c) ==> NanoUsd(r.flat[c]) == Ok(rate))
    && (!Listed(r.flat, c) && Listed(r.nested, c) ==> NanoUsd(r.nested[c]) == Ok(rate))
    && (!Listed(r.flat, c) && !Listed(r.nested, c) ==> rate == 0)
  }

  /** How many whole tokens of a class are counted. */
  ghost predicate IsCount(u: Usage, c: Class, n: nat) {
    && (c in u.tokens ==> IsWhole(u.tokens[c], n))
    && (c !in u.tokens && c == Input ==> IsWhole(u.input, n))
    && (c !in u.tokens && c != Input ==> n == 0)
  }

  /** A count that is not a number, or is below 0, counts as 0; a fraction of a token does not count. */
  ghost predicate IsWhole(x: Option<real>, n: nat) {
    if x.Some? && x.value >= 0.0 then n as real <= x.value < n as real + 1.0 else n == 0
  }

  /** A class is charged the least whole number of nano-USD that covers its tokens. */
  ghost predicate IsPrice(u: Usage, r: Rates, c: Class, price: int) {
    exists n: nat, rate: nat :: Prices(u, r, c, n, rate, price)
  }

  ghost predicate Prices(u: Usage, r: Rates, c: Class, n: nat, rate: nat, price: int) {
    IsCount(u, c, n) && IsRate(r, c, rate) && (price - 1) * 1000000 < n * rate <= price * 1000000
  }

  ghost predicate HasRate(r: Rates, c: Class) { exists rate: nat :: IsRate(r, c, rate) }

  ghost predicate RatesAreAmounts(r: Rates) {
    NanoUsd(r.fee).Ok? && forall c :: HasRate(r, c)
  }

  lemma ChargeIsPrice(u: Usage, r: Rates, c: Class)
    requires RatesAreAmounts(r)
    ensures ChargeTokens(TokensOf(u, c), RateFor(r, c)).Ok?
    ensures IsPrice(u, r, c, ChargeTokens(TokensOf(u, c), RateFor(r, c)).value)
  {
    assert HasRate(r, c);
    var rate: nat :| IsRate(r, c, rate);
    var n := Count(TokensOf(u, c));
    ChargeRoundsUp(n, rate);
    assert Prices(u, r, c, n, rate, Charge(n, rate));
  }

  lemma PriceUnique(u: Usage, r: Rates, c: Class, p: int, q: int)
    requires IsPrice(u, r, c, p) && IsPrice(u, r, c, q)
    ensures p == q
  {
    var n: nat, rate: nat :| Prices(u, r, c, n, rate, p);
    var m: nat, other: nat :| Prices(u, r, c, m, other, q);
    assert n == m && rate == other;
    CeilingUnique(p, q, n * rate, MILLION);
  }

  /** A request costs the fee and, class by class, the ceiling of its tokens at its rate per million. */
  lemma RequestCosts(u: Usage, r: Rates, price: Class -> int)
    requires RatesAreAmounts(r) && forall c :: IsPrice(u, r, c, price(c))
    ensures Expected(u, r)
            == Ok(NanoUsd(r.fee).value + price(Input) + price(CachedRead) + price(CacheWrite) + price(Output))
  {
    forall c ensures ChargeTokens(TokensOf(u, c), RateFor(r, c)) == Ok(price(c)) {
      assert IsPrice(u, r, c, price(c));
      ChargeIsPrice(u, r, c);
      PriceUnique(u, r, c, price(c), ChargeTokens(TokensOf(u, c), RateFor(r, c)).value);
    }
    FourClasses(u, r);
  }

  lemma FourClasses(u: Usage, r: Rates)
    ensures
      var charge := (c: Class) => ChargeTokens(TokensOf(u, c), RateFor(r, c));
      var (a, b, c, d) := (charge(Input), charge(CachedRead), charge(CacheWrite), charge(Output));
      SumOf(u, r, CLASSES)
      == if a.Ok? && b.Ok? && c.Ok? && d.Ok? then Ok(a.value + b.value + c.value + d.value) else Bad
  {
    assert CLASSES[..3] == [Input, CachedRead, CacheWrite] && CLASSES[..3][..2] == [Input, CachedRead];
    assert [Input, CachedRead][..1] == [Input] && [Input][..0] == [];
    var one, two, three := SumOf(u, r, [Input]), SumOf(u, r, [Input, CachedRead]), SumOf(u, r, CLASSES[..3]);
  }

  /** The rate a class is given, if it is given one. */
  ghost predicate BadRate(r: Rates, c: Class) {
    if Listed(r.flat, c) then NanoUsd(r.flat[c]).Bad? else Listed(r.nested, c) && NanoUsd(r.nested[c]).Bad?
  }

  /** A request has a price exactly when the fee and every rate are amounts, whatever is counted. */
  lemma RefusedIff(u: Usage, r: Rates)
    ensures Expected(u, r).Bad? <==> NanoUsd(r.fee).Bad? || exists c :: BadRate(r, c)
  {
    FourClasses(u, r);
    forall c ensures ChargeTokens(TokensOf(u, c), RateFor(r, c)).Bad? <==> BadRate(r, c) {
    }
    if exists c :: BadRate(r, c) {
      var c :| BadRate(r, c);
      match c
      case Input =>
      case CachedRead =>
      case CacheWrite =>
      case Output =>
    }
  }

  /** A request costs its exact price or more, and less than four nano-USD more. */
  lemma RequestRoundsUp(u: Usage, r: Rates, n: Class -> nat, rate: Class -> nat)
    requires NanoUsd(r.fee).Ok? && forall c :: IsCount(u, c, n(c)) && IsRate(r, c, rate(c))
    ensures Expected(u, r).Ok?
    ensures
      var exact := n(Input) * rate(Input) + n(CachedRead) * rate(CachedRead) + n(CacheWrite) * rate(CacheWrite)
                   + n(Output) * rate(Output);
      0 <= (Expected(u, r).value - NanoUsd(r.fee).value) * 1000000 - exact < 4000000
  {
    forall c ensures HasRate(r, c) {
      var k := rate(c);
      assert IsRate(r, c, k) && IsCount(u, c, n(c));
    }
    forall c ensures Count(TokensOf(u, c)) == n(c) && NanoUsd(RateFor(r, c)) == Ok(rate(c) as int) {
      assert IsCount(u, c, n(c)) && IsRate(r, c, rate(c));
    }
    FourClasses(u, r);
    ChargeRoundsUp(n(Input), rate(Input));
    ChargeRoundsUp(n(CachedRead), rate(CachedRead));
    ChargeRoundsUp(n(CacheWrite), rate(CacheWrite));
    ChargeRoundsUp(n(Output), rate(Output));
  }

  // -- The cost of one success ------------------------------------------------

  /** The divisor at 1e-9: Math.round(max(p, floor) * 1e9), where a value that is not positive counts as 0. */
  function Scaled(p: real, floor: real): nat {
    var divisor := RealMax(RealMax(p, 0.0), RealMax(floor, 0.0));
    (divisor * (NANO as real) + 0.5).Floor
  }

  /** None: no chance of success, or a divisor that rounds to nothing. */
  function CostPerSuccess(cost: int, p: real, floor: real): Option<int> {
    if p <= 0.0 || Scaled(p, floor) == 0 then None else Some(RoundUp(cost * NANO, Scaled(p, floor)))
  }

  /** There is no cost per success exactly when there is no chance, or both chance and floor round to nothing. */
  lemma NoCostIff(cost: int, p: real, floor: real)
    ensures CostPerSuccess(cost, p, floor).None? <==> p <= 0.0 || RealMax(p, floor) < 0.0000000005
  {
  }

  /** The divisor in billionths: the larger of the chance and the floor, to the nearest one. */
  ghost predicate IsDivisor(p: real, floor: real, s: nat) {
    var larger := if p >= floor then p else floor;
    s as real - 0.5 <= larger * 1000000000.0 < s as real + 0.5
  }

  /** A success costs the ceiling of the cost over that divisor, and never anything else. */
  lemma PerSuccessIs(cost: nat, p: real, floor: real, s: nat, c: int)
    requires p > 0.0 && s > 0 && IsDivisor(p, floor, s)
    requires (c - 1) * s < cost * 1000000000 <= c * s
    ensures CostPerSuccess(cost, p, floor) == Some(c)
  {
    assert Scaled(p, floor) == s;
    PerSuccessIsCeiling(cost, p, floor);
    CeilingUnique(c, CostPerSuccess(cost, p, floor).value, cost * NANO, s);
  }

  /** It is the exact ceiling of the cost over the divisor. */
  lemma PerSuccessIsCeiling(cost: nat, p: real, floor: real)
    requires CostPerSuccess(cost, p, floor).Some?
    ensures IsCeiling(CostPerSuccess(cost, p, floor).value, cost * NANO, Scaled(p, floor))
  {
    RoundUpIsCeiling(cost * NANO, Scaled(p, floor));
  }

  lemma ScaledGrows(p: real, q: real, floor: real)
    requires p <= q
    ensures Scaled(p, floor) <= Scaled(q, floor)
  {
  }

  /** A dearer attempt never makes a cheaper success, and neither does a smaller chance. */
  lemma PerSuccessOrder(cost: nat, more: nat, p: real, q: real, floor: real)
    requires cost <= more && p <= q && CostPerSuccess(cost, p, floor).Some?
    ensures CostPerSuccess(cost, q, floor).Some? && CostPerSuccess(more, p, floor).Some?
    ensures CostPerSuccess(cost, p, floor).value <= CostPerSuccess(more, p, floor).value
    ensures CostPerSuccess(cost, q, floor).value <= CostPerSuccess(cost, p, floor).value
  {
    ScaledGrows(p, q, floor);
    PerSuccessIsCeiling(cost, p, floor);
    PerSuccessIsCeiling(more, p, floor);
    PerSuccessIsCeiling(cost, q, floor);
    var (c, s) := (CostPerSuccess(cost, p, floor).value, Scaled(p, floor));
    CeilingIsLeast(c, CostPerSuccess(more, p, floor).value, cost * NANO, s);
    NotNegative(c, cost * NANO, s);
    Ordered(s, Scaled(q, floor), c);
    CeilingIsLeast(CostPerSuccess(cost, q, floor).value, c, cost * NANO, Scaled(q, floor));
  }

  lemma NotNegative(c: int, a: nat, d: int)
    requires d > 0 && IsCeiling(c, a, d)
    ensures c >= 0
  {
    if c < 0 { Ordered(c, -1, d); }
  }

  /** For chances up to 1 a success costs at least an attempt, and at the default floor at most ten. */
  lemma PerSuccessBounds(cost: nat, p: real, floor: real)
    requires 0.0 < p <= 1.0 && floor <= 1.0 && CostPerSuccess(cost, p, floor).Some?
    ensures cost <= CostPerSuccess(cost, p, floor).value
    ensures floor >= 0.1 ==> CostPerSuccess(cost, p, floor).value <= 10 * cost
  {
    PerSuccessIsCeiling(cost, p, floor);
    var (c, s) := (CostPerSuccess(cost, p, floor).value, Scaled(p, floor));
    assert s <= NANO;
    NotNegative(c, cost * NANO, s);
    Ordered(s, NANO, c);
    assert c * NANO >= cost * NANO;
    if floor >= 0.1 {
      assert s >= 100000000;
      Ordered(100000000, s, 10 * cost);
      CeilingIsLeast(c, 10 * cost, cost * NANO, s);
    }
  }
}
