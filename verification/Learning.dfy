/**
 * Decayed learning (src/placement.js): learn keeps two decayed counts per person, option and kind of work, and
 * successOf reads them as a bounded Beta mean. The counts are proved to be a lossless summary of the whole history.
 *
 * `0.5 ** (elapsed / half-life)` is any function of the elapsed milliseconds that is multiplicative and in (0, 1].
 */
module Learning {
  import opened Prelude

  /** Whose try it was, on which option, at which kind of work. */
  datatype Id = Id(person: string, key: string, kind: Option<string>)

  /** `at` is None when updated_at is not a date. */
  datatype Row = Row(id: Id, okW: real, nW: real, at: Option<int>)

  datatype Try = Try(id: Id, ok: bool, at: int)

  type Decay = int -> real

  ghost predicate GoodDecay(d: Decay) {
    && (forall x :: Shrinks(d, x))
    && (forall x, y :: Multiplies(d, x, y))
  }

  ghost predicate Shrinks(d: Decay, x: int) { 0 <= x ==> 0.0 < d(x) <= 1.0 }

  ghost predicate Multiplies(d: Decay, x: int, y: int) { 0 <= x && 0 <= y ==> d(x + y) == Times(d(x), d(y)) }

  function DecayCount(n: real, start: Option<int>, end: Option<int>, d: Decay): real {
    if start.None? || end.None? || end.value <= start.value then n else Times(n, d(end.value - start.value))
  }

  // -- learn ------------------------------------------------------------------

  /** The index of the first row of `id`, or the number of rows. */
  function Find(rows: seq<Row>, id: Id): (i: nat)
    ensures i <= |rows|
    ensures i < |rows| ==> rows[i].id == id
    ensures forall j :: 0 <= j < i ==> rows[j].id != id
  {
    if rows == [] then 0 else if rows[0].id == id then 0 else 1 + Find(rows[1..], id)
  }

  function Bit(b: bool): real { if b then 1.0 else 0.0 }

  function Learned(rows: seq<Row>, t: Try, d: Decay): seq<Row> {
    var i := Find(rows, t.id);
    if i == |rows| then rows + [Row(t.id, Bit(t.ok), 1.0, Some(t.at))]
    else
      var r := rows[i];
      rows[i := Row(r.id, DecayCount(r.okW, r.at, Some(t.at), d) + Bit(t.ok),
          DecayCount(r.nW, r.at, Some(t.at), d) + 1.0, Some(t.at))]
  }

  method Learn(rows: seq<Row>, t: Try, d: Decay) returns (next: seq<Row>)
    ensures next == Learned(rows, t, d)
  {
    next := rows;
    var i := 0;
    while i < |next| && next[i].id != t.id
      invariant 0 <= i <= |next| && next == rows
      invariant forall j :: 0 <= j < i ==> rows[j].id != t.id
    {
      i := i + 1;
    }
    if i < |next| {
      var row := next[i];
      row := row.(okW := DecayCount(row.okW, row.at, Some(t.at), d) + Bit(t.ok));
      row := row.(nW := DecayCount(row.nW, row.at, Some(t.at), d) + 1.0);
      row := row.(at := Some(t.at));
      next := next[i := row];
    } else {
      next := next + [Row(t.id, Bit(t.ok), 1.0, Some(t.at))];
    }
  }

  // -- The rows are the history -----------------------------------------------

  /** The rows after a whole history of tries, from an empty table. */
  function History(tries: seq<Try>, d: Decay): seq<Row>
    decreases |tries|
  {
    if tries == [] then [] else Learned(History(tries[..|tries| - 1], d), tries[|tries| - 1], d)
  }

  /** In order of time, and none after `now`. */
  ghost predicate InOrder(tries: seq<Try>, now: int) {
    && (forall i, j :: 0 <= i < j < |tries| ==> tries[i].at <= tries[j].at)
    && (forall i :: 0 <= i < |tries| ==> tries[i].at <= now)
  }

  type Select = Id -> bool

  /** One count of a row, if it is selected, decayed to the time of reading. */
  function Reading(r: Row, sel: Select, okOnly: bool, now: Option<int>, d: Decay): real {
    if sel(r.id) then DecayCount(if okOnly then r.okW else r.nW, r.at, now, d) else 0.0
  }

  function Sum(rows: seq<Row>, sel: Select, okOnly: bool, now: Option<int>, d: Decay): real
    decreases |rows|
  {
    if rows == [] then 0.0 else Reading(rows[0], sel, okOnly, now, d) + Sum(rows[1..], sel, okOnly, now, d)
  }

  /** What one try is worth `now`. */
  function Worth(t: Try, sel: Select, okOnly: bool, now: int, d: Decay): real
    requires t.at <= now
  {
    if sel(t.id) && (t.ok || !okOnly) then d(now - t.at) else 0.0
  }

  function Weight(tries: seq<Try>, sel: Select, okOnly: bool, now: int, d: Decay): real
    requires forall i :: 0 <= i < |tries| ==> tries[i].at <= now
    decreases |tries|
  {
    if tries == [] then 0.0
    else Weight(tries[..|tries| - 1], sel, okOnly, now, d) + Worth(tries[|tries| - 1], sel, okOnly, now, d)
  }

  lemma DecayAtOnce(d: Decay)
    requires GoodDecay(d)
    ensures d(0) == 1.0
  {
    assert Multiplies(d, 0, 0) && Shrinks(d, 0);
    assert d(0 + 0) == Times(d(0), d(0));
    TimesOne(d(0));
    TimesCancel(1.0, d(0), d(0));
  }

  lemma DecayIs(n: real, a: int, b: int, d: Decay)
    requires GoodDecay(d) && a <= b
    ensures DecayCount(n, Some(a), Some(b), d) == Times(n, d(b - a))
  {
    DecayAtOnce(d);
    TimesOne(n);
  }

  /** Decaying in two steps is decaying once. */
  lemma DecayTwice(n: real, a: int, b: int, c: int, d: Decay)
    requires GoodDecay(d) && a <= b <= c
    ensures DecayCount(DecayCount(n, Some(a), Some(b), d), Some(b), Some(c), d) == DecayCount(n, Some(a), Some(c), d)
  {
    DecayIs(n, a, b, d);
    DecayIs(Times(n, d(b - a)), b, c, d);
    DecayIs(n, a, c, d);
    assert Multiplies(d, b - a, c - b);
    assert (b - a) + (c - b) == c - a;
    TimesGroup(n, d(b - a), d(c - b));
  }

  lemma {:induction false} SumSnoc(rows: seq<Row>, r: Row, sel: Select, okOnly: bool, now: Option<int>, d: Decay)
    ensures Sum(rows + [r], sel, okOnly, now, d) == Sum(rows, sel, okOnly, now, d) + Reading(r, sel, okOnly, now, d)
    decreases |rows|
  {
    if rows != [] {
      assert (rows + [r])[1..] == rows[1..] + [r];
      SumSnoc(rows[1..], r, sel, okOnly, now, d);
    }
  }

  lemma {:induction false} SumUpdate(rows: seq<Row>, i: nat, r: Row, sel: Select, okOnly: bool, now: Option<int>,
      d: Decay)
    requires i < |rows|
    ensures Sum(rows[i := r], sel, okOnly, now, d) - Reading(r, sel, okOnly, now, d)
         == Sum(rows, sel, okOnly, now, d) - Reading(rows[i], sel, okOnly, now, d)
    decreases i
  {
    if i == 0 {
      assert rows[0 := r][1..] == rows[1..];
    } else {
      assert rows[i := r][1..] == rows[1..][i - 1 := r];
      SumUpdate(rows[1..], i - 1, r, sel, okOnly, now, d);
    }
  }

  /** Every row was written no later than the last try. */
  lemma {:induction false} Stamped(tries: seq<Try>, now: int, d: Decay)
    requires InOrder(tries, now)
    ensures forall i :: 0 <= i < |History(tries, d)| ==>
      History(tries, d)[i].at.Some? && History(tries, d)[i].at.value <= now
    decreases |tries|
  {
    if tries != [] { Stamped(tries[..|tries| - 1], tries[|tries| - 1].at, d); }
  }

  lemma LearnedCount(n: real, b: real, start: int, at: int, now: int, d: Decay)
    requires GoodDecay(d) && start <= at <= now
    ensures DecayCount(DecayCount(n, Some(start), Some(at), d) + b, Some(at), Some(now), d)
         == DecayCount(n, Some(start), Some(now), d) + Times(b, d(now - at))
  {
    var m := DecayCount(n, Some(start), Some(at), d);
    DecayTwice(n, start, at, now, d);
    DecayIs(m, at, now, d);
    DecayIs(m + b, at, now, d);
    TimesSum(m, b, d(now - at));
  }

  lemma LearnedOne(r: Row, t: Try, sel: Select, okOnly: bool, now: int, d: Decay)
    requires GoodDecay(d) && r.id == t.id && r.at.Some? && r.at.value <= t.at <= now
    ensures Reading(Learned([r], t, d)[0], sel, okOnly, Some(now), d)
         == Reading(r, sel, okOnly, Some(now), d) + Worth(t, sel, okOnly, now, d)
  {
    LearnedCount(r.okW, Bit(t.ok), r.at.value, t.at, now, d);
    LearnedCount(r.nW, 1.0, r.at.value, t.at, now, d);
    TimesOne(d(now - t.at));
  }

  lemma LearnedNew(t: Try, sel: Select, okOnly: bool, now: int, d: Decay)
    requires GoodDecay(d) && t.at <= now
    ensures Reading(Row(t.id, Bit(t.ok), 1.0, Some(t.at)), sel, okOnly, Some(now), d) == Worth(t, sel, okOnly, now, d)
  {
    DecayIs(Bit(t.ok), t.at, now, d);
    DecayIs(1.0, t.at, now, d);
    TimesOne(d(now - t.at));
  }

  /**
   * The table loses nothing: over any choice of persons, options and kinds, the counts read at a later time equal the
   * sum over every try ever made of the decay since that try.
   */
  lemma {:induction false} HistoryIsExact(tries: seq<Try>, sel: Select, okOnly: bool, now: int, d: Decay)
    requires GoodDecay(d) && InOrder(tries, now)
    ensures Sum(History(tries, d), sel, okOnly, Some(now), d) == Weight(tries, sel, okOnly, now, d)
    decreases |tries|
  {
    if tries != [] {
      var (before, t) := (tries[..|tries| - 1], tries[|tries| - 1]);
      var rows := History(before, d);
      HistoryIsExact(before, sel, okOnly, now, d);
      Stamped(before, t.at, d);
      LearningAdds(rows, t, sel, okOnly, now, d);
    }
  }

  /** One try adds exactly its worth to every count. */
  lemma LearningAdds(rows: seq<Row>, t: Try, sel: Select, okOnly: bool, now: int, d: Decay)
    requires GoodDecay(d) && t.at <= now && forall i :: 0 <= i < |rows| ==> rows[i].at.Some? && rows[i].at.value <= t.at
    ensures
      var added := Worth(t, sel, okOnly, now, d);
      Sum(Learned(rows, t, d), sel, okOnly, Some(now), d) == Sum(rows, sel, okOnly, Some(now), d) + added
  {
    var i := Find(rows, t.id);
    if i == |rows| {
      SumSnoc(rows, Row(t.id, Bit(t.ok), 1.0, Some(t.at)), sel, okOnly, Some(now), d);
      LearnedNew(t, sel, okOnly, now, d);
    } else {
      SumUpdate(rows, i, Learned(rows, t, d)[i], sel, okOnly, Some(now), d);
      LearnedOne(rows[i], t, sel, okOnly, now, d);
    }
  }

  /** One row per person, option and kind. */
  lemma {:induction false} OneRowEach(tries: seq<Try>, d: Decay)
    ensures forall i, j :: 0 <= i < j < |History(tries, d)| ==> History(tries, d)[i].id != History(tries, d)[j].id
    decreases |tries|
  {
    if tries != [] { OneRowEach(tries[..|tries| - 1], d); }
  }

  /** The counts of a table: never negative, never more successes than tries. */
  ghost predicate Sane(rows: seq<Row>) {
    forall i :: 0 <= i < |rows| ==> 0.0 <= rows[i].okW <= rows[i].nW
  }

  lemma DecayKeepsOrder(a: real, b: real, start: Option<int>, end: Option<int>, d: Decay)
    requires GoodDecay(d) && 0.0 <= a <= b
    ensures 0.0 <= DecayCount(a, start, end, d) <= DecayCount(b, start, end, d) <= b
  {
    if start.Some? && end.Some? && end.value > start.value {
      var x := d(end.value - start.value);
      assert Shrinks(d, end.value - start.value);
      TimesOrder(a, b, x);
      TimesShrink(x, a);
      TimesShrink(x, b);
    }
  }

  lemma LearnedKeeps(rows: seq<Row>, t: Try, d: Decay)
    requires GoodDecay(d) && Sane(rows)
    ensures Sane(Learned(rows, t, d))
  {
    var i := Find(rows, t.id);
    if i < |rows| { DecayKeepsOrder(rows[i].okW, rows[i].nW, rows[i].at, Some(t.at), d); }
  }

  lemma {:induction false} HistoryIsSane(tries: seq<Try>, d: Decay)
    requires GoodDecay(d)
    ensures Sane(History(tries, d))
    decreases |tries|
  {
    if tries != [] {
      HistoryIsSane(tries[..|tries| - 1], d);
      LearnedKeeps(History(tries[..|tries| - 1], d), tries[|tries| - 1], d);
    }
  }

  lemma {:induction false} SumBounds(rows: seq<Row>, sel: Select, now: Option<int>, d: Decay)
    requires GoodDecay(d) && Sane(rows)
    ensures 0.0 <= Sum(rows, sel, true, now, d) <= Sum(rows, sel, false, now, d)
    decreases |rows|
  {
    if rows != [] {
      DecayKeepsOrder(rows[0].okW, rows[0].nW, rows[0].at, now, d);
      SumBounds(rows[1..], sel, now, d);
    }
  }

  // -- successOf --------------------------------------------------------------

  /** The parts of `s` between dots, the empty ones dropped. */
  function Parts(s: string): seq<string>
    decreases |s|
  {
    var i := FirstDot(s);
    Kept(s[..i]) + (if i == |s| then [] else Parts(s[i + 1..]))
  }

  function Kept(part: string): seq<string> { if part == "" then [] else [part] }

  function FirstDot(s: string): (i: nat)
    ensures i <= |s|
  {
    if s == "" || s[0] == '.' then 0 else 1 + FirstDot(s[1..])
  }

  function Dotted(parts: seq<string>): string
    decreases |parts|
  {
    if parts == [] then "" else if |parts| == 1 then parts[0] else parts[0] + "." + Dotted(parts[1..])
  }

  /** The exact kind, then each dotted parent. */
  function Levels(parts: seq<string>): seq<Option<string>>
    decreases |parts|
  {
    if parts == [] then [] else [Some(Dotted(parts))] + Levels(parts[..|parts| - 1])
  }

  /** Every level to try, ending with None: every kind. */
  function KindChain(kind: Option<string>): (r: seq<Option<string>>)
    ensures r != [] && r[|r| - 1] == None
  {
    (if kind.Some? then Levels(Parts(kind.value)) else []) + [None]
  }

  /** The rows of an option at a level. */
  function At(key: string, level: Option<string>): Select {
    (id: Id) => id.key == key && (level.None? || id.kind == level)
  }

  /** The first level of the chain that holds any weight; every kind when none does. */
  function LevelOf(rows: seq<Row>, key: string, chain: seq<Option<string>>, now: Option<int>, d: Decay)
    : (level: Option<string>)
    decreases |chain|
  {
    if chain == [] then None
    else if Sum(rows, At(key, chain[0]), false, now, d) > 0.0 then chain[0]
    else LevelOf(rows, key, chain[1..], now, d)
  }

  function Mine(key: string, level: Option<string>, person: Option<string>): Select {
    (id: Id) => At(key, level)(id) && Some(id.person) == person
  }

  function Others(key: string, level: Option<string>, person: Option<string>): Select {
    (id: Id) => At(key, level)(id) && Some(id.person) != person
  }

  const WITH_PRIOR := 4.0
  const WITHOUT_PRIOR := 2.0
  const DEFAULT_PRIOR := 0.7
  const GLOBAL_CAP := 20.0

  function Share(nG: real): real {
    if nG > 0.0 then RealMin(1.0, GLOBAL_CAP / nG) else 0.0
  }

  /** The Beta mean before the clamp; the base when the division has no finite value. */
  function Mean(k: real, base: real, okP: real, nP: real, okG: real, nG: real): real {
    var w := Share(nG);
    var total := k + nP + Times(w, nG);
    if total == 0.0 then base else (Times(k, base) + okP + Times(w, okG)) / total
  }

  function Strength(prior: Option<real>): real { if prior.Some? then WITH_PRIOR else WITHOUT_PRIOR }

  function Base(prior: Option<real>): real { prior.GetOr(DEFAULT_PRIOR) }

  /** successOf, from the sums over the rows of the level that is read. */
  function Estimate(rows: seq<Row>, person: Option<string>, key: string, kind: Option<string>, prior: Option<real>,
                    now: Option<int>, d: Decay): real {
    var level := LevelOf(rows, key, KindChain(kind), now, d);
    var (mine, others) := (Mine(key, level, person), Others(key, level, person));
    Clamp(Mean(Strength(prior), Base(prior), Sum(rows, mine, true, now, d), Sum(rows, mine, false, now, d),
               Sum(rows, others, true, now, d), Sum(rows, others, false, now, d)))
  }

  method SuccessOf(rows: seq<Row>, person: Option<string>, key: string, kind: Option<string>, prior: Option<real>,
                   now: Option<int>, d: Decay) returns (p: real)
    ensures p == Estimate(rows, person, key, kind, prior, now, d)
  {
    var level := ReadLevel(rows, key, kind, now, d);
    var okP, nP, okG, nG := 0.0, 0.0, 0.0, 0.0;
    var j := 0;
    while j < |rows|
      invariant 0 <= j <= |rows|
      invariant okP == Sum(rows[..j], Mine(key, level, person), true, now, d)
      invariant nP == Sum(rows[..j], Mine(key, level, person), false, now, d)
      invariant okG == Sum(rows[..j], Others(key, level, person), true, now, d)
      invariant nG == Sum(rows[..j], Others(key, level, person), false, now, d)
    {
      var r := rows[j];
      Reads(rows, j, Mine(key, level, person), now, d);
      Reads(rows, j, Others(key, level, person), now, d);
      if At(key, level)(r.id) {
        var ok := DecayCount(r.okW, r.at, now, d);
        var n := DecayCount(r.nW, r.at, now, d);
        if Some(r.id.person) == person {
          okP, nP := okP + ok, nP + n;
        } else {
          okG, nG := okG + ok, nG + n;
        }
      }
      j := j + 1;
    }
    assert rows[..j] == rows;
    var k := if prior.Some? then WITH_PRIOR else WITHOUT_PRIOR;
    var base := prior.GetOr(DEFAULT_PRIOR);
    p := Clamp(Mean(k, base, okP, nP, okG, nG));
  }

  lemma Reads(rows: seq<Row>, j: nat, sel: Select, now: Option<int>, d: Decay)
    requires j < |rows|
    ensures forall b ::
      Sum(rows[..j + 1], sel, b, now, d) == Sum(rows[..j], sel, b, now, d) + Reading(rows[j], sel, b, now, d)
  {
    forall b
      ensures Sum(rows[..j + 1], sel, b, now, d) == Sum(rows[..j], sel, b, now, d) + Reading(rows[j], sel, b, now, d)
    {
      assert rows[..j + 1] == rows[..j] + [rows[j]];
      SumSnoc(rows[..j], rows[j], sel, b, now, d);
    }
  }

  /** The loop over the kind chain: the first level with any weight. */
  method ReadLevel(rows: seq<Row>, key: string, kind: Option<string>, now: Option<int>, d: Decay)
    returns (level: Option<string>)
    ensures level == LevelOf(rows, key, KindChain(kind), now, d)
  {
    var chain := KindChain(kind);
    var i := 0;
    while i < |chain|
      invariant 0 <= i <= |chain|
      invariant LevelOf(rows, key, chain, now, d) == LevelOf(rows, key, chain[i..], now, d)
    {
      var total := 0.0;
      var j := 0;
      while j < |rows|
        invariant 0 <= j <= |rows|
        invariant total == Sum(rows[..j], At(key, chain[i]), false, now, d)
      {
        Reads(rows, j, At(key, chain[i]), now, d);
        if At(key, chain[i])(rows[j].id) { total := total + DecayCount(rows[j].nW, rows[j].at, now, d); }
        j := j + 1;
      }
      assert rows[..j] == rows;
      if total > 0.0 { return chain[i]; }
      i := i + 1;
    }
    return None;
  }

  // -- What the estimate is worth ---------------------------------------------

  /** Other people's tries count at most as twenty. */
  lemma ShareBounds(okG: real, nG: real)
    requires 0.0 <= okG <= nG
    ensures 0.0 <= Times(Share(nG), okG) <= Times(Share(nG), nG) <= GLOBAL_CAP
  {
    TimesOne(nG);
    TimesOne(okG);
    if nG > 0.0 {
      Quotient(GLOBAL_CAP, nG);
      TimesCancel(0.0, GLOBAL_CAP / nG, nG);
      TimesOrder(Share(nG), GLOBAL_CAP / nG, nG);
      TimesOrder(okG, nG, Share(nG));
      TimesShrink(Share(nG), okG);
    }
  }

  /** With a prior in [0, 1] the clamp never does anything. */
  lemma ClampIsIdle(k: real, base: real, okP: real, nP: real, okG: real, nG: real)
    requires 0.0 < k && 0.0 <= base <= 1.0 && 0.0 <= okP <= nP && 0.0 <= okG <= nG
    ensures 0.0 <= Mean(k, base, okP, nP, okG, nG) <= 1.0
    ensures Clamp(Mean(k, base, okP, nP, okG, nG)) == Mean(k, base, okP, nP, okG, nG)
  {
    ShareBounds(okG, nG);
    TimesShrink(base, k);
    Proportion(Times(k, base) + okP + Times(Share(nG), okG), k + nP + Times(Share(nG), nG));
  }

  /** a/b and (a + x)/(b + m) differ by at most m/(b + m). */
  lemma MixBound(a: real, b: real, x: real, m: real)
    requires 0.0 <= a <= b && 0.0 < b && 0.0 <= x <= m
    ensures -(m / (b + m)) <= (a + x) / (b + m) - a / b <= m / (b + m)
  {
    var (p, q, c) := ((a + x) / (b + m), a / b, m / (b + m));
    Quotient(a + x, b + m);
    Quotient(a, b);
    Quotient(m, b + m);
    Proportion(a, b);
    TimesSum(b, m, q);
    TimesSum(q, 0.0, b);
    TimesSum(q, 0.0, b + m);
    TimesSum(p, q, b + m);
    TimesShrink(q, m);
    TimesSum(0.0, c, b + m);
    TimesOne(b + m);
    TimesCancel(0.0 - c, p - q, b + m);
    TimesCancel(p - q, c, b + m);
  }

  lemma MixGrows(b: real, m: real, cap: real)
    requires 0.0 < b && 0.0 <= m <= cap
    ensures m / (b + m) <= cap / (b + cap)
  {
    var (u, v) := (b / (b + m), b / (b + cap));
    Quotient(b, b + m);
    Quotient(b, b + cap);
    Proportion(b, b + cap);
    TimesOrder(b + m, b + cap, v);
    TimesSum(v, 0.0, b + cap);
    TimesSum(v, 0.0, b + m);
    TimesCancel(v, u, b + m);
    Rest(b, m);
    Rest(b, cap);
  }

  lemma Rest(b: real, m: real)
    requires 0.0 < b && 0.0 <= m
    ensures m / (b + m) == 1.0 - b / (b + m)
  {
    Quotient(b, b + m);
    Quotient(m, b + m);
    TimesSum(m / (b + m), b / (b + m), b + m);
    TimesOne(b + m);
    TimesCancel(m / (b + m) + b / (b + m), 1.0, b + m);
    TimesCancel(1.0, m / (b + m) + b / (b + m), b + m);
  }

  /** However many tries others made, the estimate stays this close to the person's own rate. */
  lemma NearOwnRate(k: real, base: real, okP: real, nP: real, okG: real, nG: real)
    requires 0.0 < k && 0.0 <= base <= 1.0 && 0.0 <= okP <= nP && 0.0 < nP && 0.0 <= okG <= nG
    ensures -((k + GLOBAL_CAP) / (nP + (k + GLOBAL_CAP))) <= Mean(k, base, okP, nP, okG, nG) - okP / nP
    ensures Mean(k, base, okP, nP, okG, nG) - okP / nP <= (k + GLOBAL_CAP) / (nP + (k + GLOBAL_CAP))
  {
    ShareBounds(okG, nG);
    TimesShrink(base, k);
    var x := Times(k, base) + Times(Share(nG), okG);
    var m := k + Times(Share(nG), nG);
    MixBound(okP, nP, x, m);
    MixGrows(nP, m, k + GLOBAL_CAP);
    assert Times(k, base) + okP + Times(Share(nG), okG) == okP + x && k + nP + Times(Share(nG), nG) == nP + m;
  }

  /** Evidence about an option is never overlooked: if it holds any weight at all, so does the level that is read. */
  lemma {:induction false} EvidenceIsFound(rows: seq<Row>, key: string, chain: seq<Option<string>>, now: Option<int>,
      d: Decay)
    requires chain != [] && chain[|chain| - 1] == None && Sum(rows, At(key, None), false, now, d) > 0.0
    ensures Sum(rows, At(key, LevelOf(rows, key, chain, now, d)), false, now, d) > 0.0
    decreases |chain|
  {
    if Sum(rows, At(key, chain[0]), false, now, d) <= 0.0 { EvidenceIsFound(rows, key, chain[1..], now, d); }
  }

  /**
   * End to end: over the table a whole history leaves, the person's rate is the decayed share of their own tries that
   * succeeded, and the estimate lies in [0, 1] and within (k + 20) / (k + 20 + n) of it.
   */
  lemma EstimateFollowsHistory(tries: seq<Try>, person: Option<string>, key: string, kind: Option<string>,
      prior: Option<real>, now: int, d: Decay)
    requires GoodDecay(d) && InOrder(tries, now) && 0.0 <= Base(prior) <= 1.0
    ensures
      var level := LevelOf(History(tries, d), key, KindChain(kind), Some(now), d);
      var (mine, others, k) := (Mine(key, level, person), Others(key, level, person), Strength(prior));
      var (ok, n) := (Weight(tries, mine, true, now, d), Weight(tries, mine, false, now, d));
      var p := Estimate(History(tries, d), person, key, kind, prior, Some(now), d);
      && p == Mean(k, Base(prior), ok, n, Weight(tries, others, true, now, d), Weight(tries, others, false, now, d))
      && 0.0 <= p <= 1.0
      && (n > 0.0 ==>
        -((k + GLOBAL_CAP) / (n + (k + GLOBAL_CAP))) <= p - ok / n <= (k + GLOBAL_CAP) / (n + (k + GLOBAL_CAP)))
  {
    var rows := History(tries, d);
    var level := LevelOf(rows, key, KindChain(kind), Some(now), d);
    var (mine, others) := (Mine(key, level, person), Others(key, level, person));
    HistoryIsSane(tries, d);
    HistoryIsExact(tries, mine, true, now, d);
    HistoryIsExact(tries, mine, false, now, d);
    HistoryIsExact(tries, others, true, now, d);
    HistoryIsExact(tries, others, false, now, d);
    SumBounds(rows, mine, Some(now), d);
    SumBounds(rows, others, Some(now), d);
    var (ok, n) := (Weight(tries, mine, true, now, d), Weight(tries, mine, false, now, d));
    var (okG, nG) := (Weight(tries, others, true, now, d), Weight(tries, others, false, now, d));
    ClampIsIdle(Strength(prior), Base(prior), ok, n, okG, nG);
    if n > 0.0 { NearOwnRate(Strength(prior), Base(prior), ok, n, okG, nG); }
  }

  // -- The kinds that are read ------------------------------------------------

  /** A piece of a kind: not empty, and without a dot. */
  ghost predicate IsPiece(p: string) { p != "" && '.' !in p }

  lemma {:induction false} NoDot(s: string)
    ensures '.' !in s ==> FirstDot(s) == |s|
    ensures forall b :: '.' !in s ==> FirstDot(s + "." + b) == |s|
    decreases |s|
  {
    if s != "" {
      NoDot(s[1..]);
      assert s == [s[0]] + s[1..];
      forall b ensures (s + "." + b)[1..] == s[1..] + "." + b && (s + "." + b)[0] == s[0] {
      }
    }
  }

  /** A kind without a dot is its one piece, and none when it is empty. */
  lemma PartsAlone(s: string)
    requires '.' !in s
    ensures Parts(s) == if s == "" then [] else [s]
  {
    NoDot(s);
    assert s[..|s|] == s;
  }

  /** A dot only divides: the pieces of two kinds with a dot between them are the pieces of both. */
  lemma {:induction false} PartsJoin(a: string, b: string)
    ensures Parts(a + "." + b) == Parts(a) + Parts(b)
    decreases |a|
  {
    var (s, i) := (a + "." + b, FirstDot(a));
    DotIsFirst(a, b);
    assert s[..i] == a[..i];
    PartsStep(s, i);
    if i == |a| {
      assert s[i + 1..] == b && a[..i] == a;
      PartsEnd(a);
    } else {
      var rest := a[i + 1..];
      assert s[i + 1..] == rest + "." + b;
      PartsStep(a, i);
      PartsJoin(rest, b);
      AppendGroups(Kept(a[..i]), Parts(rest), Parts(b));
    }
  }

  lemma PartsEnd(s: string)
    requires FirstDot(s) == |s|
    ensures Parts(s) == Kept(s)
  {
    assert s[..|s|] == s && Kept(s) + [] == Kept(s);
  }

  lemma PartsStep(s: string, i: nat)
    requires i == FirstDot(s) < |s|
    ensures Parts(s) == Kept(s[..i]) + Parts(s[i + 1..])
  {
  }

  lemma {:induction false} DotIsFirst(a: string, b: string)
    ensures FirstDot(a + "." + b) == FirstDot(a) < |a + "." + b|
    decreases |a|
  {
    if a != "" {
      assert (a + "." + b)[1..] == a[1..] + "." + b;
      DotIsFirst(a[1..], b);
    }
  }

  /** Pieces with a dot between each two of them. */
  lemma {:induction false} DottedSnoc(parts: seq<string>, p: string)
    ensures Dotted(parts + [p]) == if parts == [] then p else Dotted(parts) + "." + p
    decreases |parts|
  {
    if parts == [] {
      assert parts + [p] == [p];
    } else {
      assert (parts + [p])[1..] == parts[1..] + [p];
      DottedSnoc(parts[1..], p);
      assert parts[0] + "." + (Dotted(parts[1..]) + "." + p) == parts[0] + "." + Dotted(parts[1..]) + "." + p;
    }
  }

  lemma {:induction false} LevelsAre(parts: seq<string>)
    ensures |Levels(parts)| == |parts|
    ensures forall j :: 0 <= j < |parts| ==> Levels(parts)[j] == Some(Dotted(parts[..|parts| - j]))
    decreases |parts|
  {
    if parts != [] {
      var front := parts[..|parts| - 1];
      LevelsAre(front);
      forall j | 0 <= j < |parts| ensures Levels(parts)[j] == Some(Dotted(parts[..|parts| - j])) {
        if j == 0 {
          assert parts[..|parts|] == parts;
        } else {
          assert front[..|front| - (j - 1)] == parts[..|parts| - j];
        }
      }
    }
  }

  /** A kind is read first as it is, then without its last piece, and so on up; after that every kind is. */
  lemma ChainIs(kind: Option<string>)
    ensures kind.None? ==> KindChain(kind) == [None]
    ensures kind.Some? ==>
              var (parts, chain) := (Parts(kind.value), KindChain(kind));
              && |chain| == |parts| + 1 && chain[|parts|] == None
              && forall j :: 0 <= j < |parts| ==> chain[j] == Some(Dotted(parts[..|parts| - j]))
  {
    if kind.Some? { LevelsAre(Parts(kind.value)); }
  }

  /** The level that is read is the first of the chain with any weight; every kind when none has any. */
  lemma {:induction false} LevelIs(rows: seq<Row>, key: string, chain: seq<Option<string>>, now: Option<int>, d: Decay)
    ensures forall i :: IsFirstWith(rows, key, chain, now, d, i) ==> LevelOf(rows, key, chain, now, d) == chain[i]
    ensures (forall i :: 0 <= i < |chain| ==> Sum(rows, At(key, chain[i]), false, now, d) <= 0.0) ==>
              LevelOf(rows, key, chain, now, d) == None
    decreases |chain|
  {
    if chain != [] {
      var rest := chain[1..];
      LevelIs(rows, key, rest, now, d);
      assert forall i :: 0 < i < |chain| ==> chain[i] == rest[i - 1];
      forall i | IsFirstWith(rows, key, chain, now, d, i) ensures LevelOf(rows, key, chain, now, d) == chain[i] {
        if i > 0 { assert IsFirstWith(rows, key, rest, now, d, i - 1); }
      }
    }
  }

  ghost predicate IsFirstWith(rows: seq<Row>, key: string, chain: seq<Option<string>>, now: Option<int>, d: Decay,
      i: int)
  {
    && 0 <= i < |chain| && Sum(rows, At(key, chain[i]), false, now, d) > 0.0
    && forall j :: 0 <= j < i ==> Sum(rows, At(key, chain[j]), false, now, d) <= 0.0
  }

  // -- The estimate in numbers ------------------------------------------------

  /** Which tries are read at a level: those on the option, of that kind; the person's own, and everybody else's. */
  lemma SelectsAre(key: string, level: Option<string>, person: Option<string>, id: Id)
    ensures At(key, level)(id) <==> id.key == key && (level == None || id.kind == level)
    ensures Mine(key, level, person)(id) <==> At(key, level)(id) && person == Some(id.person)
    ensures Others(key, level, person)(id) <==> At(key, level)(id) && person != Some(id.person)
  {
  }

  /** Without both dates, or from a date that is still to come, a count is taken as it stands. */
  lemma NotDecayed(n: real, start: Option<int>, end: Option<int>, d: Decay)
    requires start.None? || end.None? || end.value <= start.value
    ensures DecayCount(n, start, end, d) == n
  {
  }

  /** What others' counts come to: themselves, up to twenty tries, and twenty tries' worth beyond. */
  ghost predicate CountsFor(w: real, nG: real) {
    (nG <= 0.0 ==> w == 0.0) && (0.0 < nG <= 20.0 ==> w == 1.0) && (nG > 20.0 ==> Times(w, nG) == 20.0)
  }

  /**
   * The estimate is the share of successes among the person's own tries, others' tries, which count for twenty at most,
   * and a few tries that are assumed: four at the prior, or two at 0.7 without one.
   */
  lemma MeanIs(prior: Option<real>, okP: real, nP: real, okG: real, nG: real, w: real)
    requires CountsFor(w, nG) && 0.0 <= nP
    ensures
      var (k, base) := if prior.Some? then (4.0, prior.value) else (2.0, 0.7);
      Times(Mean(Strength(prior), Base(prior), okP, nP, okG, nG), k + nP + Times(w, nG))
      == Times(k, base) + okP + Times(w, okG)
  {
    ShareIs(nG, w);
    var (k, base) := (Strength(prior), Base(prior));
    TimesOne(nG);
    Quotient(Times(k, base) + okP + Times(w, okG), k + nP + Times(w, nG));
  }

  lemma ShareIs(nG: real, w: real)
    requires CountsFor(w, nG)
    ensures Share(nG) == w && Times(w, nG) >= 0.0
  {
    TimesOne(nG);
    if nG > 0.0 {
      Quotient(20.0, nG);
      TimesOrder(20.0 / nG, 20.0 / nG, nG);
      if nG > 20.0 {
        TimesCancel(w, 20.0 / nG, nG);
        TimesCancel(20.0 / nG, w, nG);
        TimesCancel(20.0 / nG, 1.0, nG);
      } else {
        TimesCancel(1.0, 20.0 / nG, nG);
      }
    }
  }
}
