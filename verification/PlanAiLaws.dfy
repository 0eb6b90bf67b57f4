/**
 * What planAi makes of evidence, ceilings and objectives, said in numbers: how far a measurement is trusted, what a
 * success is priced at, and by how much a faster or better candidate must lead to come before a cheaper one.
 */
module PlanAiLaws {
  import opened Prelude
  import opened Money
  import opened PlanAi

  // -- Evidence ---------------------------------------------------------------

  /** A measurement is thin without a positive confidence, or with fewer samples than the floor. */
  ghost predicate Thin(e: Evidence, floor: real) {
    e.confidence.None? || e.confidence.value <= 0.0 || e.samples < floor
  }

  /** The nearest number to x in [0, 1]. */
  ghost predicate Nearest(y: real, x: real) {
    (x <= 0.0 && y == 0.0) || (0.0 <= x <= 1.0 && y == x) || (x >= 1.0 && y == 1.0)
  }

  /**
   * The chance a candidate is judged by: the prior when nothing or too little was measured, none when a success was
   * never measured, and otherwise the measurement as far as it is trusted, the prior for the rest.
   */
  lemma QualityIs(ev: Option<Evidence>, prior: real, floor: real)
    ensures
      var q := QualityOf(ev, prior, floor);
      match ev
      case None => q.p == prior && q.sparse
      case Some(e) =>
        if e.p.None? || e.p.value <= 0.0 then q.p == 0.0 && q.sparse
        else if Thin(e, floor) then Nearest(q.p, prior) && q.sparse && q.confidence == 0.0
        else
          !q.sparse && q.confidence == (if e.confidence.value < 1.0 then e.confidence.value else 1.0)
          && Nearest(q.p, Times(q.confidence, e.p.value) + Times(1.0 - q.confidence, prior))
    ensures
      var q := QualityOf(ev, prior, floor);
      match ev
      case None => q.samples == 0.0 && q.confidence == 0.0 && q.source == "prior"
      case Some(e) =>
        var named := e.source.Some? && e.source.value != "";
        && q.samples == e.samples && (named ==> q.source == e.source.value)
        && (e.p.None? || e.p.value <= 0.0 ==> q.confidence == 0.0 && (!named ==> q.source == "evidence"))
        && (e.p.Some? && e.p.value > 0.0 && !named ==>
          q.source == if Thin(e, floor) then "sparse_evidence" else "evidence")
  {
  }

  // -- The ceiling ------------------------------------------------------------

  /** A ceiling in nano-USD is an amount; one in dollars is the least whole number of nano-USD that reaches it. */
  lemma LimitIs(n: Needs)
    ensures n.maxNano.Some? ==> Limit(n) == Some(NanoUsd(n.maxNano.value))
    ensures n.maxNano.None? && n.maxUsd.None? ==> Limit(n).None?
    ensures n.maxNano.None? && n.maxUsd.Some? ==>
              Limit(n).Some? && Limit(n).value.Ok?
              && Limit(n).value.value as real - 1.0 < n.maxUsd.value * 1000000000.0 <= Limit(n).value.value as real
  {
  }

  // -- Verdicts ---------------------------------------------------------------

  /** What a scored candidate carries: its own cost, chance, latency and the cost of one success. */
  lemma ScoredIs(n: Needs, c: Candidate, o: Options)
    requires Evaluate(n, c, o).In?
    ensures
      var s := Evaluate(n, c, o).s;
      var q := QualityOf(if c.id in o.evidence then Some(o.evidence[c.id]) else None, o.prior, o.sparseFloor);
      && s.id == c.id && s.model == c.model && s.latency == c.latency
      && c.id in o.rates && Expected(o.usage, o.rates[c.id]) == Ok(s.expected)
      && s.p == q.p && s.sparse == q.sparse && s.samples == q.samples && s.confidence == q.confidence
      && s.source == q.source
      && CostPerSuccess(s.expected, s.p, o.pFloor) == Some(s.perSuccess)
  {
  }

  lemma {:induction false} MissingIs(wanted: seq<string>, have: set<string>)
    ensures FirstMissing(wanted, have).Some? ==>
              var cap := FirstMissing(wanted, have).value;
              cap in wanted && IsModelCapability(cap) && cap !in have
    decreases |wanted|
  {
    if wanted != [] { MissingIs(wanted[1..], have); }
  }

  /** The reason given for leaving a candidate out is true of it. */
  lemma ReasonIsTrue(n: Needs, c: Candidate, o: Options)
    requires Evaluate(n, c, o).Out?
    ensures
      match Evaluate(n, c, o).why
      case ExactModel => Given(n.exact) && c.model != n.exact.value && c.artifact != n.exact.value
      case NoRight => (c.paid || n.paid) && c.access == ""
      case PaidRight => (c.paid || n.paid) && c.access != "" && !PaidRightHeld(c.access)
      case RestrictedRight => !c.paid && !n.paid && n.allowRestricted && c.access != "" && !PaidRightHeld(c.access)
      case Privacy => Given(n.privacy) && !KeepsPrivacy(c, n.privacy.value)
      case Tier => n.trust != [] && Given(c.tier) && c.tier.value !in n.trust
      case LacksCap(cap) => cap in n.capabilities && IsModelCapability(cap) && cap !in c.capabilities
      case Context => n.context.Some? && c.context.Some? && c.context.value < n.context.value
      case Status => (if Given(c.status) then c.status.value !in {"ready", "warming", "degraded"} else c.unhealthy)
      case Unhealthy => c.unhealthy
      case NoRate => c.id !in o.rates
      case OverCeiling =>
        c.id in o.rates && Expected(o.usage, o.rates[c.id]).Ok? && Limit(n).Some? && Limit(n).value.Ok?
        && Expected(o.usage, o.rates[c.id]).value > Limit(n).value.value
      case NoChanceOfSuccess => PassesGates(n, c) && !Eligible(n, c, o)
      case Dearer => false
  {
    MissingIs(n.capabilities, c.capabilities);
    if Given(n.privacy) { KeepsPrivacyIff(c, n.privacy.value); }
    GatesIff(n, c);
    InIff(n, c, o);
  }

  /** Every rejection gives a reason a candidate with that id was left out for, or that another was chosen instead. */
  lemma {:induction false} RejectionsAreTrue(es: seq<Entry>, r: Rejected)
    requires r in RejectedOf(es)
    ensures exists i :: 0 <= i < |es| && es[i] == Entry(r.id, Out(r.why))
    decreases |es|
  {
    var (front, e) := (es[..|es| - 1], es[|es| - 1]);
    if r in RejectedOf(front) {
      RejectionsAreTrue(front, r);
      var i :| 0 <= i < |front| && front[i] == Entry(r.id, Out(r.why));
      assert es[i] == front[i];
    } else {
      assert es[|es| - 1] == Entry(r.id, Out(r.why));
    }
  }

  lemma {:induction false} RestIsDearer(rs: seq<Rejected>, cs: seq<Scored>, chosen: string, r: Rejected)
    requires r in RejectRest(rs, cs, chosen)
    ensures r in rs || (r.why == Dearer && r.id != chosen && exists i :: 0 <= i < |cs| && cs[i].id == r.id)
    decreases |cs|
  {
    if cs != [] {
      var n := |cs| - 1;
      if r in RejectRest(rs, cs[..n], chosen) {
        RestIsDearer(rs, cs[..n], chosen, r);
      } else {
        assert cs[n].id == r.id;
      }
    }
  }

  /** In the answer: a candidate is rejected for a true reason, or because another one was chosen. */
  lemma AnswerIsTrue(n: Needs, cs: seq<Candidate>, o: Options, sort: Sorter, r: Rejected)
    requires Planned(n, cs, o, true, sort).Answer? && r in Planned(n, cs, o, true, sort).rejected
    ensures (exists i :: 0 <= i < |cs| && cs[i].id == r.id && Evaluate(n, cs[i], o) == Out(r.why))
            || (r.why == Dearer && Planned(n, cs, o, true, sort).chosen.Some?
                && Planned(n, cs, o, true, sort).chosen != Some(r.id)
                && exists i :: 0 <= i < |cs| && cs[i].id == r.id && Evaluate(n, cs[i], o).In?)
  {
    var (es, a) := (Entries(n, cs, o), Planned(n, cs, o, true, sort));
    var scored := ScoredOf(es);
    if a.chosen.Some? && r !in RejectedOf(es) {
      RestIsDearer(RejectedOf(es), scored, a.chosen.value, r);
      var k :| 0 <= k < |scored| && scored[k].id == r.id;
      ScoredAre(es, scored[k]);
      var i :| 0 <= i < |es| && es[i].id != "" && es[i].v == In(scored[k]);
      InHasId(n, cs[i], o);
    } else {
      RejectionsAreTrue(es, r);
      var i :| 0 <= i < |es| && es[i] == Entry(r.id, Out(r.why));
      assert cs[i].id == r.id;
    }
  }

  // -- The order --------------------------------------------------------------

  /** What a success is priced at: a thin measurement does not count, so it is priced at the prior. */
  ghost predicate IsPricedAt(s: Scored, prior: real, floor: real, price: int) {
    if s.sparse then CostPerSuccess(s.expected, prior, floor) == Some(price) else s.perSuccess == price
  }

  ghost predicate IsChance(s: Scored, prior: real, chance: real) { chance == if s.sparse then prior else s.p }

  /** The largest known latency, or 0. */
  lemma {:induction false} MaxLatIs(cs: seq<Scored>)
    ensures MaxLat(cs) == 0.0 || exists k :: 0 <= k < |cs| && cs[k].latency == Some(MaxLat(cs))
    ensures forall k :: 0 <= k < |cs| && cs[k].latency.Some? ==> cs[k].latency.value <= MaxLat(cs)
    decreases |cs|
  {
    if cs != [] {
      var (m, rest) := (MaxLat(cs), cs[1..]);
      MaxLatIs(rest);
      assert forall k :: 0 < k < |cs| ==> cs[k] == rest[k - 1];
      if m != 0.0 && cs[0].latency != Some(m) {
        var k :| 0 <= k < |rest| && rest[k].latency == Some(m);
        assert cs[k + 1] == rest[k];
      }
    }
  }

  /** How much slower a is than b, as a share of the largest latency; nothing where one of them is unknown. */
  ghost predicate IsSlower(a: Scored, b: Scored, maxLat: real, share: real) {
    if a.latency.Some? && b.latency.Some? && maxLat > 0.0 then
      Times(share, maxLat) == a.latency.value - b.latency.value
    else share == 0.0
  }

  lemma GapIs(a: Scored, b: Scored, r: Ranking, share: real)
    requires IsSlower(a, b, r.maxLat, share)
    ensures LatencyGap(a, b, r) == share
  {
    if a.latency.Some? && b.latency.Some? && r.maxLat > 0.0 {
      Quotient(a.latency.value - b.latency.value, r.maxLat);
      TimesCancel(share, LatencyGap(a, b, r), r.maxLat);
      TimesCancel(LatencyGap(a, b, r), share, r.maxLat);
    }
  }

  /**
   * Of two candidates with different prices the cheaper comes first, unless the other leads it by more than the
   * objective allows: under "balanced" when it is faster by more than a sixth of the largest latency, under "fastest"
   * by more than a sixteenth, under "best" when its chance is better by more than a sixteenth; under all other
   * objectives nothing outweighs the price.
   */
  lemma DifferentPrices(a: Scored, b: Scored, r: Ranking, x: int, y: int, share: real, p: real, q: real)
    requires IsPricedAt(a, r.prior, r.pFloor, x) && IsPricedAt(b, r.prior, r.pFloor, y) && x != y
    requires IsSlower(a, b, r.maxLat, share) && IsChance(a, r.prior, p) && IsChance(b, r.prior, q)
    ensures
      Before(a, b, r) <==>
        if r.objective == "balanced" then 6.0 * share < -1.0 || (6.0 * share <= 1.0 && x < y)
        else if r.objective == "fastest" then 16.0 * share < -1.0 || (16.0 * share <= 1.0 && x < y)
        else if r.objective == "best" then 16.0 * (p - q) > 1.0 || (16.0 * (p - q) >= -1.0 && x < y)
        else x < y
  {
    GapIs(a, b, r, share);
    assert CostOf(a, r) == x && CostOf(b, r) == y;
    assert QualityFor(a, r) == p && QualityFor(b, r) == q;
  }

  /** At one price the faster comes first where both latencies are known and differ, else the first by name. */
  lemma SamePrice(a: Scored, b: Scored, r: Ranking, x: int)
    requires IsPricedAt(a, r.prior, r.pFloor, x) && IsPricedAt(b, r.prior, r.pFloor, x)
    ensures
      Before(a, b, r) <==>
        if a.latency.Some? && b.latency.Some? && a.latency != b.latency then a.latency.value < b.latency.value
        else NamesBefore(a.id, b.id)
  {
  }

  /** The gain over the current deployment: how much cheaper, to a thousandth of its price, toward zero. */
  lemma GainIs(cur: int, best: int, k: int)
    requires cur > 0
    requires if best <= cur then k * cur <= (cur - best) * 1000 < (k + 1) * cur
             else (k - 1) * cur < (cur - best) * 1000 <= k * cur
    ensures GainOf(cur, best) == k as real / 1000.0
  {
    var x := (cur - best) * 1000;
    if best <= cur {
      QuotientIs(x, cur, k);
    } else {
      assert (-k) * cur == -(k * cur) && (-k + 1) * cur == -((k - 1) * cur);
      QuotientIs(-x, cur, -k);
    }
  }

  lemma QuotientIs(x: int, d: int, k: int)
    requires d > 0 && k * d <= x < (k + 1) * d
    ensures x / d == k
  {
    DivideDown(x, d);
    var q := x / d;
    if q < k { Ordered(q + 1, k, d); }
    if k < q { Ordered(k + 1, q, d); }
  }

  /** A current deployment that is free is not left for a gain of more than nothing. */
  lemma NoGain(cur: int, best: int)
    requires cur <= 0
    ensures GainOf(cur, best) == 0.0
  {
  }

  /** Who names no objective asks for the cheapest; planAi is off unless it is turned on. */
  lemma Defaults(n: Needs, cs: seq<Candidate>, o: Options, sort: Sorter)
    ensures !Given(n.objective) ==> ObjectiveFor(n) == "cheapest"
    ensures Given(n.objective) ==> Some(ObjectiveFor(n)) == n.objective
    ensures Planned(n, cs, o, false, sort) == Disabled
    ensures Planned(n, cs, o, true, sort) == Failed
            <==> exists i :: 0 <= i < |cs| && cs[i].id != "" && Evaluate(n, cs[i], o).Threw?
  {
    var es := Entries(n, cs, o);
    if exists i :: 0 <= i < |cs| && cs[i].id != "" && Evaluate(n, cs[i], o).Threw? {
      var i :| 0 <= i < |cs| && cs[i].id != "" && Evaluate(n, cs[i], o).Threw?;
      assert es[i].v.Threw?;
    }
  }

  /** An amount that is none stops planAi: the rate or fee of a candidate that passes the gates, or the ceiling. */
  lemma ThrowsIff(n: Needs, c: Candidate, o: Options)
    ensures Evaluate(n, c, o).Threw?
            <==> PassesGates(n, c) && c.id in o.rates
                 && (Expected(o.usage, o.rates[c.id]).Bad? || (n.maxNano.Some? && NanoUsd(n.maxNano.value).Bad?))
  {
    GatesIff(n, c);
  }
}
