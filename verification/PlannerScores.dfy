/**
 * What plan's ranking means for two offers, said in what they cost, how fast they are and how likely they succeed:
 * under "cheapest" the cheaper comes first, under "lowest-latency" the faster, and never one that is worse in both.
 */
module PlannerScores {
  import opened Prelude
  import opened Planner

  /** What a success costs at an offer: its cost, divided by the chance when one was given. */
  ghost function PerSuccess(req: Requirements, o: Offer, ctx: Context): real
    requires Selectable(req, o, ctx)
  {
    var cost := EstimateCost(req, o, ctx).value;
    if o.id in ctx.success then cost / ctx.success[o.id] else cost
  }

  /** The largest cost per success of the offers that compete, at least a millionth of a millionth of a dollar. */
  ghost predicate IsTopCost(top: real, req: Requirements, offers: seq<Offer>, ctx: Context) {
    && top >= 0.000000000001
    && (forall o :: o in offers && Selectable(req, o, ctx) ==> PerSuccess(req, o, ctx) <= top)
    && (top == 0.000000000001 || exists o :: o in offers && Selectable(req, o, ctx) && PerSuccess(req, o, ctx) == top)
  }

  /** The largest known latency of the offers that compete, at least a millisecond. */
  ghost predicate IsTopLatency(top: real, req: Requirements, offers: seq<Offer>, ctx: Context) {
    && top >= 1.0
    && (forall o :: o in offers && Selectable(req, o, ctx) && LatencyOf(o, req.latencyOp).Some? ==>
      LatencyOf(o, req.latencyOp).value <= top)
    && (top == 1.0
        || exists o :: o in offers && Selectable(req, o, ctx) && LatencyOf(o, req.latencyOp) == Some(top))
  }

  /** The latency an offer is held to: an unknown one counts as the largest. */
  ghost function HeldTo(req: Requirements, o: Offer, top: real): real { LatencyOf(o, req.latencyOp).GetOr(top) }

  /** The candidates of a come before those of b, wherever both are ranked. */
  ghost predicate Leads(req: Requirements, offers: seq<Offer>, ctx: Context, a: Offer, b: Offer) {
    var ranked := RankedFor(req, offers, ctx);
    forall k, l :: 0 <= k < |ranked| && 0 <= l < |ranked| ==>
      (IsFrom(ranked[k], req, a, ctx) && IsFrom(ranked[l], req, b, ctx) ==> k < l)
  }

  // -- The scores of the ranked -----------------------------------------------

  lemma {:induction false} MaxCostIs(cs: seq<Scored>, success: map<string, real>)
    ensures MaxCost(cs, success) == LEAST_COST
            || exists k :: 0 <= k < |cs| && CostForScore(cs[k], success) == MaxCost(cs, success)
    decreases |cs|
  {
    if cs != [] {
      MaxCostIs(cs[1..], success);
      var m := MaxCost(cs, success);
      if m != LEAST_COST {
        if m == CostForScore(cs[0], success) {
        } else {
          var k :| 0 <= k < |cs[1..]| && CostForScore(cs[1..][k], success) == m;
          assert cs[k + 1] == cs[1..][k];
        }
      }
    }
  }

  lemma {:induction false} MaxLatencyIs(cs: seq<Scored>)
    ensures MaxLatency(cs) == 1.0 || exists k :: 0 <= k < |cs| && cs[k].latency == Some(MaxLatency(cs))
    ensures forall k :: 0 <= k < |cs| && cs[k].latency.Some? ==> cs[k].latency.value <= MaxLatency(cs)
    decreases |cs|
  {
    if cs != [] {
      MaxLatencyIs(cs[1..]);
      var m := MaxLatency(cs);
      if m != 1.0 && cs[0].latency != Some(m) {
        var k :| 0 <= k < |cs[1..]| && cs[1..][k].latency == Some(m);
        assert cs[k + 1] == cs[1..][k];
      }
      forall k | 0 <= k < |cs| && cs[k].latency.Some? ensures cs[k].latency.value <= m {
        if k > 0 { assert cs[k] == cs[1..][k - 1]; }
      }
    }
  }

  lemma TopCostIs(top: real, req: Requirements, offers: seq<Offer>, ctx: Context)
    requires IsTopCost(top, req, offers, ctx)
    ensures MaxCost(Competing(req, offers, ctx), ctx.success) == top
  {
    var cs := Competing(req, offers, ctx);
    var m := MaxCost(cs, ctx.success);
    MaxCostIs(cs, ctx.success);
    if m != LEAST_COST {
      var k :| 0 <= k < |cs| && CostForScore(cs[k], ctx.success) == m;
      var o := OfferOf(req, offers, ctx, k);
      ScoredCost(cs[k], req, o, ctx);
    }
    if top != LEAST_COST {
      var o :| o in offers && Selectable(req, o, ctx) && PerSuccess(req, o, ctx) == top;
      var k := CandidateOf(req, offers, ctx, o);
      ScoredCost(cs[k], req, o, ctx);
    }
  }

  /** The offer a candidate is made from, and the candidate made from an offer. */
  lemma OfferOf(req: Requirements, offers: seq<Offer>, ctx: Context, k: nat) returns (o: Offer)
    requires k < |Competing(req, offers, ctx)|
    ensures o in offers && IsFrom(Competing(req, offers, ctx)[k], req, o, ctx)
  {
    CompetingFrom(req, offers, ctx, k);
    var i :| 0 <= i < |offers| && IsFrom(Competing(req, offers, ctx)[k], req, offers[i], ctx);
    o := offers[i];
  }

  lemma CandidateOf(req: Requirements, offers: seq<Offer>, ctx: Context, o: Offer) returns (k: nat)
    requires o in offers && Selectable(req, o, ctx)
    ensures k < |Competing(req, offers, ctx)| && IsFrom(Competing(req, offers, ctx)[k], req, o, ctx)
  {
    var i :| 0 <= i < |offers| && offers[i] == o;
    CompetingHas(req, offers, ctx, i);
    var c := Scored(o.id, EstimateCost(req, o, ctx).value, LatencyOf(o, req.latencyOp), 0.0);
    k :| 0 <= k < |Competing(req, offers, ctx)| && Competing(req, offers, ctx)[k] == c;
  }

  lemma ScoredCost(c: Scored, req: Requirements, o: Offer, ctx: Context)
    requires IsFrom(c, req, o, ctx)
    ensures CostForScore(c, ctx.success) == PerSuccess(req, o, ctx)
  {
  }

  lemma TopLatencyIs(top: real, req: Requirements, offers: seq<Offer>, ctx: Context)
    requires IsTopLatency(top, req, offers, ctx)
    ensures MaxLatency(Competing(req, offers, ctx)) == top
  {
    var cs := Competing(req, offers, ctx);
    var m := MaxLatency(cs);
    MaxLatencyIs(cs);
    if m != 1.0 {
      var k :| 0 <= k < |cs| && cs[k].latency == Some(m);
      var o := OfferOf(req, offers, ctx, k);
      assert LatencyOf(o, req.latencyOp) == Some(m);
    }
    if top != 1.0 {
      var o :| o in offers && Selectable(req, o, ctx) && LatencyOf(o, req.latencyOp) == Some(top);
      var k := CandidateOf(req, offers, ctx, o);
      assert cs[k].latency == Some(top);
    }
  }

  /** The score of a ranked candidate, from its offer. */
  ghost function Raw(objective: string, w: Weights, cost: real, latency: real): real {
    if objective == "cheapest" then cost + latency * 0.001
    else if objective == "lowest-latency" then latency + cost * 0.001
    else Times(cost, w.cost) + Times(latency, w.latency)
  }

  lemma RankedScore(req: Requirements, offers: seq<Offer>, ctx: Context, topCost: real, topLatency: real, o: Offer,
      c: Scored)
    requires IsTopCost(topCost, req, offers, ctx) && IsTopLatency(topLatency, req, offers, ctx)
    requires c in RankedFor(req, offers, ctx) && IsFrom(c, req, o, ctx)
    ensures c.score == Fixed6(Raw(ObjectiveOf(req), ctx.weights, PerSuccess(req, o, ctx) / topCost,
                                  HeldTo(req, o, topLatency) / topLatency))
  {
    var cs := Competing(req, offers, ctx);
    var scored := ScoreAll(cs, ObjectiveOf(req), ctx.weights, ctx.success);
    RankSorts(scored);
    assert c in multiset(Rank(scored));
    var k :| 0 <= k < |scored| && scored[k] == c;
    assert c == Rescored(cs[k], cs, ObjectiveOf(req), ctx.weights, ctx.success);
    TopCostIs(topCost, req, offers, ctx);
    TopLatencyIs(topLatency, req, offers, ctx);
    ScoreIs(cs[k], req, o, ctx, topCost, topLatency);
  }

  lemma ScoreIs(c: Scored, req: Requirements, o: Offer, ctx: Context, topCost: real, topLatency: real)
    requires IsFrom(c, req, o, ctx) && topCost > 0.0 && topLatency > 0.0
    ensures Score(c, ObjectiveOf(req), ctx.weights, ctx.success, topCost, topLatency)
            == Fixed6(Raw(ObjectiveOf(req), ctx.weights, PerSuccess(req, o, ctx) / topCost,
                          HeldTo(req, o, topLatency) / topLatency))
  {
    assert CostForScore(c, ctx.success) == PerSuccess(req, o, ctx);
    assert c.latency.GetOr(topLatency) == HeldTo(req, o, topLatency);
    ScoreOf(c, ObjectiveOf(req), ctx.weights, ctx.success, topCost, topLatency);
  }

  lemma ScoreOf(c: Scored, objective: string, w: Weights, success: map<string, real>, topCost: real, topLatency: real)
    requires topCost > 0.0 && topLatency > 0.0
    ensures
      var (x, y) := (CostForScore(c, success) / topCost, c.latency.GetOr(topLatency) / topLatency);
      Score(c, objective, w, success, topCost, topLatency) == Fixed6(Raw(objective, w, x, y))
  {
  }

  /** The nearest whole number. */
  ghost predicate IsNearest(n: int, x: real) { n as real - 0.5 <= x <= n as real + 0.5 }

  ghost function Millionths(x: real): int {
    if x < 0.0 then -((-x * 1000000.0 + 0.5).Floor) else (x * 1000000.0 + 0.5).Floor
  }

  /** A score is rounded to a whole number of millionths, the nearest one. */
  lemma FixedIs(x: real)
    ensures Fixed6(x) * 1000000.0 == Millionths(x) as real && IsNearest(Millionths(x), x * 1000000.0)
  {
    var n := Millionths(x);
    assert Fixed6(x) == n as real / 1000000.0;
  }

  lemma MillionthsOrder(x: real, y: real)
    ensures x <= y ==> Millionths(x) <= Millionths(y)
    ensures x + 0.000001 <= y ==> Millionths(x) < Millionths(y)
  {
    var (a, b) := (x * 1000000.0, y * 1000000.0);
    if x < 0.0 <= y {
      assert Millionths(x) <= 0 <= Millionths(y);
      assert x + 0.000001 <= y ==> a + 1.0 <= b;
    } else if x < 0.0 && y < 0.0 {
      FloorOrder(-b + 0.5, -a + 0.5);
    } else {
      FloorOrder(a + 0.5, b + 0.5);
    }
  }

  lemma FloorOrder(x: real, y: real)
    ensures x <= y ==> x.Floor <= y.Floor
    ensures x + 1.0 <= y ==> x.Floor < y.Floor
  {
  }

  lemma FixedOrder(x: real, y: real)
    ensures x <= y ==> Fixed6(x) <= Fixed6(y)
    ensures x + 0.000001 <= y ==> Fixed6(x) < Fixed6(y)
  {
    FixedIs(x);
    FixedIs(y);
    MillionthsOrder(x, y);
  }

  /** A lower score comes first. */
  lemma LowerLeads(req: Requirements, offers: seq<Offer>, ctx: Context, topCost: real, topLatency: real, a: Offer,
      b: Offer)
    requires IsTopCost(topCost, req, offers, ctx) && IsTopLatency(topLatency, req, offers, ctx)
    requires Selectable(req, a, ctx) && Selectable(req, b, ctx)
    requires
      Raw(ObjectiveOf(req), ctx.weights, PerSuccess(req, a, ctx) / topCost, HeldTo(req, a, topLatency) / topLatency)
      + 0.000001
      <= Raw(ObjectiveOf(req), ctx.weights, PerSuccess(req, b, ctx) / topCost, HeldTo(req, b, topLatency) / topLatency)
    ensures Leads(req, offers, ctx, a, b)
  {
    var ranked := RankedFor(req, offers, ctx);
    RankedAreSelectable(req, offers, ctx);
    forall k, l | 0 <= k < |ranked| && 0 <= l < |ranked| && IsFrom(ranked[k], req, a, ctx)
                  && IsFrom(ranked[l], req, b, ctx)
      ensures k < l
    {
      LowerAhead(req, offers, ctx, topCost, topLatency, a, b, ranked[k], ranked[l]);
    }
  }

  lemma LowerAhead(req: Requirements, offers: seq<Offer>, ctx: Context, topCost: real, topLatency: real, a: Offer,
      b: Offer, c: Scored, d: Scored)
    requires IsTopCost(topCost, req, offers, ctx) && IsTopLatency(topLatency, req, offers, ctx)
    requires c in RankedFor(req, offers, ctx) && d in RankedFor(req, offers, ctx)
    requires IsFrom(c, req, a, ctx) && IsFrom(d, req, b, ctx)
    requires
      Raw(ObjectiveOf(req), ctx.weights, PerSuccess(req, a, ctx) / topCost, HeldTo(req, a, topLatency) / topLatency)
      + 0.000001
      <= Raw(ObjectiveOf(req), ctx.weights, PerSuccess(req, b, ctx) / topCost, HeldTo(req, b, topLatency) / topLatency)
    ensures Ahead(c, d) && c != d
  {
    RankedScore(req, offers, ctx, topCost, topLatency, a, c);
    RankedScore(req, offers, ctx, topCost, topLatency, b, d);
    FixedOrder(
      Raw(ObjectiveOf(req), ctx.weights, PerSuccess(req, a, ctx) / topCost, HeldTo(req, a, topLatency) / topLatency),
      Raw(ObjectiveOf(req), ctx.weights, PerSuccess(req, b, ctx) / topCost, HeldTo(req, b, topLatency) / topLatency));
  }

  // -- The laws ---------------------------------------------------------------

  lemma Share(x: real, y: real, part: real, top: real)
    requires top > 0.0 && x + part * top <= y
    ensures x / top + part <= y / top
  {
    assert (x + part * top) / top == x / top + part;
    assert (y - (x + part * top)) / top >= 0.0;
  }

  /** Known latencies are not negative. */
  ghost predicate Measured(req: Requirements, o: Offer) {
    LatencyOf(o, req.latencyOp).Some? ==> LatencyOf(o, req.latencyOp).value >= 0.0
  }

  lemma HeldShare(req: Requirements, offers: seq<Offer>, ctx: Context, top: real, o: Offer)
    requires IsTopLatency(top, req, offers, ctx) && o in offers && Selectable(req, o, ctx) && Measured(req, o)
    ensures 0.0 <= HeldTo(req, o, top) / top <= 1.0
  {
    Proportion(HeldTo(req, o, top), top);
  }

  /**
   * "cheapest": of two offers that compete, the one with the lower cost per success is ranked first, unless they differ
   * by no more than a thousandth of the largest cost, and the rounding to six decimals.
   */
  lemma CheaperLeads(req: Requirements, offers: seq<Offer>, ctx: Context, topCost: real, topLatency: real, a: Offer,
      b: Offer)
    requires ObjectiveOf(req) == "cheapest"
    requires IsTopCost(topCost, req, offers, ctx) && IsTopLatency(topLatency, req, offers, ctx)
    requires a in offers && b in offers && Selectable(req, a, ctx) && Selectable(req, b, ctx)
    requires Measured(req, a) && Measured(req, b)
    requires PerSuccess(req, a, ctx) + 0.001001 * topCost <= PerSuccess(req, b, ctx)
    ensures Leads(req, offers, ctx, a, b)
  {
    Share(PerSuccess(req, a, ctx), PerSuccess(req, b, ctx), 0.001001, topCost);
    HeldShare(req, offers, ctx, topLatency, a);
    HeldShare(req, offers, ctx, topLatency, b);
    LowerLeads(req, offers, ctx, topCost, topLatency, a, b);
  }

  /** Costs that are not negative, as a share of the largest. */
  lemma CostShare(req: Requirements, offers: seq<Offer>, ctx: Context, top: real, o: Offer)
    requires IsTopCost(top, req, offers, ctx) && o in offers && Selectable(req, o, ctx)
    requires PerSuccess(req, o, ctx) >= 0.0
    ensures 0.0 <= PerSuccess(req, o, ctx) / top <= 1.0
  {
    Proportion(PerSuccess(req, o, ctx), top);
  }

  /** "lowest-latency": the same for the latency, an unknown one counting as the largest. */
  lemma FasterLeads(req: Requirements, offers: seq<Offer>, ctx: Context, topCost: real, topLatency: real, a: Offer,
      b: Offer)
    requires ObjectiveOf(req) == "lowest-latency"
    requires IsTopCost(topCost, req, offers, ctx) && IsTopLatency(topLatency, req, offers, ctx)
    requires a in offers && b in offers && Selectable(req, a, ctx) && Selectable(req, b, ctx)
    requires PerSuccess(req, a, ctx) >= 0.0 && PerSuccess(req, b, ctx) >= 0.0
    requires HeldTo(req, a, topLatency) + 0.001001 * topLatency <= HeldTo(req, b, topLatency)
    ensures Leads(req, offers, ctx, a, b)
  {
    Share(HeldTo(req, a, topLatency), HeldTo(req, b, topLatency), 0.001001, topLatency);
    CostShare(req, offers, ctx, topCost, a);
    CostShare(req, offers, ctx, topCost, b);
    LowerLeads(req, offers, ctx, topCost, topLatency, a, b);
  }

  /**
   * Any other objective weighs the two, each as a share of the largest: an offer whose advantage in cost, times the
   * weight of cost, outweighs by a millionth what it loses in latency is ranked first.
   */
  lemma WeightsDecide(req: Requirements, offers: seq<Offer>, ctx: Context, topCost: real, topLatency: real, a: Offer,
      b: Offer)
    requires ObjectiveOf(req) != "cheapest" && ObjectiveOf(req) != "lowest-latency"
    requires IsTopCost(topCost, req, offers, ctx) && IsTopLatency(topLatency, req, offers, ctx)
    requires Selectable(req, a, ctx) && Selectable(req, b, ctx)
    requires
      var (cheaper, faster) := (PerSuccess(req, b, ctx) / topCost - PerSuccess(req, a, ctx) / topCost,
                                HeldTo(req, b, topLatency) / topLatency - HeldTo(req, a, topLatency) / topLatency);
      Times(cheaper, ctx.weights.cost) + Times(faster, ctx.weights.latency) >= 0.000001
    ensures Leads(req, offers, ctx, a, b)
  {
    var (x, y) := (PerSuccess(req, a, ctx) / topCost, PerSuccess(req, b, ctx) / topCost);
    var (u, v) := (HeldTo(req, a, topLatency) / topLatency, HeldTo(req, b, topLatency) / topLatency);
    TimesSum(y, x, ctx.weights.cost);
    TimesSum(v, u, ctx.weights.latency);
    LowerLeads(req, offers, ctx, topCost, topLatency, a, b);
  }

  /** Dearer per success, or as dear; and slower, or as slow, an unknown latency being slower than any. */
  ghost predicate WorseInBoth(req: Requirements, b: Offer, a: Offer, ctx: Context)
    requires Selectable(req, a, ctx) && Selectable(req, b, ctx)
  {
    var (x, y) := (LatencyOf(a, req.latencyOp), LatencyOf(b, req.latencyOp));
    PerSuccess(req, b, ctx) >= PerSuccess(req, a, ctx) && (y.None? || (x.Some? && y.value >= x.value))
  }

  lemma OrderedShares(x: real, y: real, top: real, w: real)
    requires x <= y && top > 0.0 && w >= 0.0
    ensures x / top <= y / top && Times(x / top, w) <= Times(y / top, w)
  {
    assert (y - x) / top >= 0.0;
    TimesOrder(x / top, y / top, w);
  }

  /** Under no objective, with weights that are not negative, is an offer ahead of one it is worse than in both. */
  lemma WorseNeverAhead(req: Requirements, offers: seq<Offer>, ctx: Context, topCost: real, topLatency: real, a: Offer,
      b: Offer, c: Scored, d: Scored)
    requires IsTopCost(topCost, req, offers, ctx) && IsTopLatency(topLatency, req, offers, ctx)
    requires ctx.weights.cost >= 0.0 && ctx.weights.latency >= 0.0 && a in offers && b in offers
    requires Selectable(req, a, ctx) && Selectable(req, b, ctx) && WorseInBoth(req, b, a, ctx)
    requires c in RankedFor(req, offers, ctx) && IsFrom(c, req, a, ctx)
    requires d in RankedFor(req, offers, ctx) && IsFrom(d, req, b, ctx)
    ensures !Ahead(d, c)
  {
    var (x, y) := (PerSuccess(req, a, ctx), PerSuccess(req, b, ctx));
    var (u, v) := (HeldTo(req, a, topLatency), HeldTo(req, b, topLatency));
    RawOrder(ObjectiveOf(req), ctx.weights, x, y, topCost, u, v, topLatency);
    FixedOrder(Raw(ObjectiveOf(req), ctx.weights, x / topCost, u / topLatency),
               Raw(ObjectiveOf(req), ctx.weights, y / topCost, v / topLatency));
    RankedScore(req, offers, ctx, topCost, topLatency, a, c);
    RankedScore(req, offers, ctx, topCost, topLatency, b, d);
  }

  lemma RawOrder(objective: string, w: Weights, x: real, y: real, topCost: real, u: real, v: real, topLatency: real)
    requires x <= y && u <= v && topCost > 0.0 && topLatency > 0.0 && w.cost >= 0.0 && w.latency >= 0.0
    ensures Raw(objective, w, x / topCost, u / topLatency) <= Raw(objective, w, y / topCost, v / topLatency)
  {
    OrderedShares(x, y, topCost, w.cost);
    OrderedShares(u, v, topLatency, w.latency);
  }

  // -- The selection ----------------------------------------------------------

  /** The work is free to go to the best offer: it is not critical, and runs nowhere that still competes. */
  ghost predicate Unbound(given: Requirements, offers: seq<Offer>, ctx: Context) {
    var ranked := Planned(given, offers, ctx).ranked;
    !Critical(Tighten(given)) && Competitor(ranked, ctx.current) == |ranked|
  }

  lemma HeadIsSelected(given: Requirements, offers: seq<Offer>, ctx: Context) returns (o: Offer)
    requires Unbound(given, offers, ctx) && Planned(given, offers, ctx).selected.Some?
    ensures o in offers && Selectable(Tighten(given), o, ctx) && Planned(given, offers, ctx).selected == Some(o.id)
    ensures forall b :: b in offers && Selectable(Tighten(given), b, ctx) ==>
              !Leads(Tighten(given), offers, ctx, b, o)
  {
    var req := Tighten(given);
    var ranked := RankedFor(req, offers, ctx);
    RankedAreSelectable(req, offers, ctx);
    assert ranked[0] in ranked;
    var i :| 0 <= i < |offers| && IsFrom(ranked[0], req, offers[i], ctx);
    o := offers[i];
    forall b | b in offers && Selectable(req, b, ctx) ensures !Leads(req, offers, ctx, b, o) {
      var j :| 0 <= j < |offers| && offers[j] == b;
      SelectableAreRanked(req, offers, ctx, j);
      var c :| c in ranked && IsFrom(c, req, b, ctx);
      var k :| 0 <= k < |ranked| && ranked[k] == c;
      assert IsFrom(ranked[k], req, b, ctx) && IsFrom(ranked[0], req, o, ctx);
    }
  }

  /**
   * Under "cheapest" the work goes where a success costs least, to a thousandth of the largest cost and the rounding;
   * under "lowest-latency" where it is fastest, to a thousandth of the largest latency.
   */
  lemma BestIsSelected(given: Requirements, offers: seq<Offer>, ctx: Context, topCost: real, topLatency: real)
    requires Unbound(given, offers, ctx) && Planned(given, offers, ctx).selected.Some?
    requires IsTopCost(topCost, Tighten(given), offers, ctx) && IsTopLatency(topLatency, Tighten(given), offers, ctx)
    requires forall o :: o in offers && Selectable(Tighten(given), o, ctx) ==>
               Measured(Tighten(given), o) && PerSuccess(Tighten(given), o, ctx) >= 0.0
    ensures
      var req := Tighten(given);
      exists o :: o in offers && Selectable(req, o, ctx) && Planned(given, offers, ctx).selected == Some(o.id)
        && (ObjectiveOf(req) == "cheapest" ==> forall b :: b in offers && Selectable(req, b, ctx) ==>
          PerSuccess(req, o, ctx) < PerSuccess(req, b, ctx) + 0.001001 * topCost)
        && (ObjectiveOf(req) == "lowest-latency" ==> forall b :: b in offers && Selectable(req, b, ctx) ==>
          HeldTo(req, o, topLatency) < HeldTo(req, b, topLatency) + 0.001001 * topLatency)
  {
    var req := Tighten(given);
    var o := HeadIsSelected(given, offers, ctx);
    forall b | b in offers && Selectable(req, b, ctx) && ObjectiveOf(req) == "cheapest"
      ensures PerSuccess(req, o, ctx) < PerSuccess(req, b, ctx) + 0.001001 * topCost
    {
      if PerSuccess(req, b, ctx) + 0.001001 * topCost <= PerSuccess(req, o, ctx) {
        CheaperLeads(req, offers, ctx, topCost, topLatency, b, o);
      }
    }
    forall b | b in offers && Selectable(req, b, ctx) && ObjectiveOf(req) == "lowest-latency"
      ensures HeldTo(req, o, topLatency) < HeldTo(req, b, topLatency) + 0.001001 * topLatency
    {
      if HeldTo(req, b, topLatency) + 0.001001 * topLatency <= HeldTo(req, o, topLatency) {
        FasterLeads(req, offers, ctx, topCost, topLatency, b, o);
      }
    }
  }
}
