/**
 * What plan reads off an offer: how fast it is, what the work would cost there, and which gate it misses, each said in
 * the offer's own terms.
 */
module PlannerCosts {
  import opened Prelude
  import opened Planner

  // -- Latency ----------------------------------------------------------------

  ghost predicate OccursAt(part: string, name: string, i: int) {
    0 <= i && i + |part| <= |name| && name[i..i + |part|] == part
  }

  ghost predicate Occurs(part: string, name: string) { exists i :: OccursAt(part, name, i) }

  lemma {:induction false} Mentions95Iff(name: string)
    ensures Mentions95(name) <==> Occurs("p95", name)
    decreases |name|
  {
    if |name| >= 3 {
      var rest := name[1..];
      Mentions95Iff(rest);
      if name[..3] == "p95" { assert OccursAt("p95", name, 0); }
      if Occurs("p95", rest) {
        var i :| OccursAt("p95", rest, i);
        assert name[i + 1..i + 4] == rest[i..i + 3];
        assert OccursAt("p95", name, i + 1);
      }
      if Occurs("p95", name) {
        var i :| OccursAt("p95", name, i);
        if i > 0 {
          assert rest[i - 1..i + 2] == name[i..i + 3];
          assert OccursAt("p95", rest, i - 1);
        }
      }
    }
  }

  /** The k-th latency is the first under this name. */
  ghost predicate IsNamed(latencies: seq<(string, real)>, op: string, k: int) {
    0 <= k < |latencies| && latencies[k].0 == op && forall i :: 0 <= i < k ==> latencies[i].0 != op
  }

  /** v is the least of the latencies whose names mention p95. */
  ghost predicate IsLeast95(latencies: seq<(string, real)>, v: real) {
    && (exists k :: 0 <= k < |latencies| && Occurs("p95", latencies[k].0) && latencies[k].1 == v)
    && (forall k :: 0 <= k < |latencies| && Occurs("p95", latencies[k].0) ==> v <= latencies[k].1)
  }

  lemma {:induction false} NamedIs(latencies: seq<(string, real)>, op: string)
    ensures forall k :: IsNamed(latencies, op, k) ==> Named(latencies, op) == Some(latencies[k].1)
    ensures Named(latencies, op).None? <==> forall k :: 0 <= k < |latencies| ==> latencies[k].0 != op
    decreases |latencies|
  {
    if latencies != [] {
      var rest := latencies[1..];
      NamedIs(rest, op);
      assert forall k :: 0 < k < |latencies| ==> latencies[k] == rest[k - 1];
      forall k | IsNamed(latencies, op, k) ensures Named(latencies, op) == Some(latencies[k].1) {
        if k > 0 { assert IsNamed(rest, op, k - 1); }
      }
    }
  }

  lemma {:induction false} Fastest95Is(latencies: seq<(string, real)>)
    ensures Fastest95(latencies).None? <==> forall k :: 0 <= k < |latencies| ==> !Occurs("p95", latencies[k].0)
    ensures Fastest95(latencies).Some? ==> IsLeast95(latencies, Fastest95(latencies).value)
    decreases |latencies|
  {
    if latencies != [] {
      var (first, rest) := (latencies[0], latencies[1..]);
      Fastest95Is(rest);
      Mentions95Iff(first.0);
      assert forall k :: 0 < k < |latencies| ==> latencies[k] == rest[k - 1];
      if Fastest95(latencies).Some? {
        var v := Fastest95(latencies).value;
        if Occurs("p95", first.0) && first.1 == v {
          assert latencies[0] == first;
        } else {
          var k :| 0 <= k < |rest| && Occurs("p95", rest[k].0) && rest[k].1 == v;
          assert latencies[k + 1] == rest[k];
        }
      }
    }
  }

  /** An offer's latency: the one measured for the operation, else the least p95, else none. */
  lemma LatencyIs(o: Offer, op: Option<string>)
    ensures forall k :: Given(op) && IsNamed(o.latencies, op.value, k) ==> LatencyOf(o, op) == Some(o.latencies[k].1)
    ensures
      (!Given(op) || forall k :: 0 <= k < |o.latencies| ==> o.latencies[k].0 != op.value) ==>
        && (LatencyOf(o, op).None? <==> forall k :: 0 <= k < |o.latencies| ==> !Occurs("p95", o.latencies[k].0))
        && (LatencyOf(o, op).Some? ==> IsLeast95(o.latencies, LatencyOf(o, op).value))
  {
    if Given(op) { NamedIs(o.latencies, op.value); }
    Fastest95Is(o.latencies);
  }

  // -- Cost -------------------------------------------------------------------

  /** Work that names no units is one unit. */
  ghost predicate IsUnits(req: Requirements, units: real) {
    if req.units == 0.0 then units == 1.0 else units == req.units
  }

  /** The busiest of the resources an offer reports, 0 when it reports none. */
  ghost predicate IsBusiest(load: seq<real>, u: real) {
    && u >= 0.0 && (forall i :: 0 <= i < |load| ==> load[i] <= u)
    && (u == 0.0 || exists i :: 0 <= i < |load| && load[i] == u)
  }

  /** A number that is paid for by the unit. */
  ghost predicate IsPaid(cost: Option<real>, price: real, units: real) { cost == Some(Times(price, units)) }

  /**
   * Owned capacity costs nothing up to the busy mark and its maximum from the full mark on; between them it rises with
   * the square of the way from one to the other.
   */
  lemma OwnedCost(req: Requirements, o: Offer, ctx: Context, units: real, u: real, way: real)
    requires o.pricing.Some? && o.pricing.value.prepaid && IsUnits(req, units) && IsBusiest(o.capacity.load, u)
    requires Times(way, ctx.owned.full - ctx.owned.busy) == u - ctx.owned.busy
    ensures u <= ctx.owned.busy ==> EstimateCost(req, o, ctx) == Some(0.0)
    ensures ctx.owned.busy < u && ctx.owned.full <= u ==> IsPaid(EstimateCost(req, o, ctx), ctx.owned.maxUsd, units)
    ensures ctx.owned.busy < u < ctx.owned.full ==>
              IsPaid(EstimateCost(req, o, ctx), Times(ctx.owned.maxUsd, Times(way, way)), units)
  {
    LoadIsAnElement(o.capacity.load);
    assert Busiest(o.capacity.load) == u;
    TimesOne(units);
    var (busy, full) := (ctx.owned.busy, ctx.owned.full);
    if busy < u < full {
      var x := (u - busy) / (full - busy);
      Quotient(u - busy, full - busy);
      TimesCancel(x, way, full - busy);
      TimesCancel(way, x, full - busy);
    }
  }

  /** The state kept of the card's provider, else of the offer's. */
  ghost predicate IsState(card: Card, o: Offer, ctx: Context, s: Option<State>) {
    && (card.provider in ctx.states ==> s == Some(ctx.states[card.provider]))
    && (card.provider !in ctx.states && o.provider.Some? && o.provider.value in ctx.states ==>
      s == Some(ctx.states[o.provider.value]))
    && (card.provider !in ctx.states && (o.provider.None? || o.provider.value !in ctx.states) ==> s == None)
  }

  /** What the metric will have used by the end of the period: its forecast, else at the rate of use so far. */
  ghost predicate IsExpected(metric: string, s: Option<State>, now: real, expected: real) {
    && (s.None? ==> expected == 0.0)
    && (s.Some? && metric in s.value.forecast ==> expected == s.value.forecast[metric])
    && (s.Some? && metric !in s.value.forecast ==>
      var elapsed := RealMax(1.0, now - s.value.start.GetOr(now));
      var total := RealMax(elapsed, s.value.end.GetOr(now) - s.value.start.GetOr(now));
      var used := if metric in s.value.usage then s.value.usage[metric] else 0.0;
      Times(expected, elapsed) == Times(used, total))
  }

  /** What of the allowance this work may count on: all of it when it is urgent, else all but the reserve. */
  ghost predicate IsAllowance(req: Requirements, card: Card, s: Option<State>, free: real) {
    var urgent := req.latencyClass == "critical" || req.latencyClass == "realtime";
    if urgent || s.None? || card.metric !in s.value.reserve then free == card.free
    else free == card.free - Times(card.free, s.value.reserve[card.metric])
  }

  lemma ExpectedIs(card: Card, s: Option<State>, now: real, expected: real)
    requires IsExpected(card.metric, s, now, expected)
    ensures Expected(card, s, now) == expected
  {
    if s.None? {
      TimesOne(RealMax(1.0, 0.0) / 1.0);
    } else if card.metric !in s.value.forecast {
      var (start, end) := (s.value.start.GetOr(now), s.value.end.GetOr(now));
      var elapsed := RealMax(1.0, now - start);
      var total := RealMax(elapsed, end - start);
      var used := Lookup(s.value.usage, card.metric);
      Quotient(total, elapsed);
      TimesGroup(used, total / elapsed, elapsed);
      TimesCancel(Times(used, total / elapsed), expected, elapsed);
      TimesCancel(expected, Times(used, total / elapsed), elapsed);
    }
  }

  /**
   * Work on a rate card costs the card's rate for exactly those of its units that go beyond the allowance, after what
   * the period is expected to use anyway.
   */
  lemma CardCost(req: Requirements, o: Offer, ctx: Context, units: real, s: Option<State>, expected: real, free: real)
    requires o.pricing.Some? && !o.pricing.value.prepaid && Given(o.pricing.value.rateCard)
    requires o.pricing.value.rateCard.value in ctx.cards && IsUnits(req, units) && units >= 0.0
    requires ctx.cards[o.pricing.value.rateCard.value].unitSize > 0.0
    requires ctx.cards[o.pricing.value.rateCard.value].unitPrice >= 0.0
    requires IsState(ctx.cards[o.pricing.value.rateCard.value], o, ctx, s)
    requires IsExpected(ctx.cards[o.pricing.value.rateCard.value].metric, s, ctx.now, expected)
    requires IsAllowance(req, ctx.cards[o.pricing.value.rateCard.value], s, free)
    ensures
      var card := ctx.cards[o.pricing.value.rateCard.value];
      var beyond := RealMax(0.0, expected + units - free) - RealMax(0.0, expected - free);
      IsPaid(EstimateCost(req, o, ctx), beyond, card.unitPrice / card.unitSize)
  {
    var card := ctx.cards[o.pricing.value.rateCard.value];
    var high := req.latencyClass == "critical" || req.latencyClass == "realtime";
    assert StateOf(card, o, ctx) == s;
    ExpectedIs(card, s, ctx.now, expected);
    TimesOne(card.free);
    if s.Some? && !high { TimesSum(1.0, Lookup(s.value.reserve, card.metric), card.free); }
    assert Allowance(card, s, high) == free;
    MarginalIs(card, free, expected, units);
  }

  /** A card without a unit size is priced by the unit. */
  lemma CardWithoutSize(card: Card, free: real, units: real)
    requires card.unitSize == 0.0
    ensures PriceOf(card, free, units) == PriceOf(card.(unitSize := 1.0), free, units)
  {
  }

  /** Without a card an offer costs its price by the unit; without that nobody knows, and it is never assumed free. */
  lemma UnitCost(req: Requirements, o: Offer, ctx: Context, units: real)
    requires IsUnits(req, units)
    requires o.pricing.Some? && !o.pricing.value.prepaid
    requires !Given(o.pricing.value.rateCard) || o.pricing.value.rateCard.value !in ctx.cards
    ensures o.pricing.value.perUnit.Some? ==> IsPaid(EstimateCost(req, o, ctx), o.pricing.value.perUnit.value, units)
    ensures o.pricing.value.perUnit.None? ==> EstimateCost(req, o, ctx).None?
  {
  }

  lemma NoPricing(req: Requirements, o: Offer, ctx: Context)
    requires o.pricing.None?
    ensures EstimateCost(req, o, ctx).None?
  {
  }

  // -- Verdicts ---------------------------------------------------------------

  /** A gate is missed. */
  ghost predicate Misses(req: Requirements, o: Offer, g: Gate) {
    match g
    case Lacks(c) => c in req.capabilities && c !in o.capabilities
    case WrongTrust => if req.trust == [] then !NotOwned(o) else o.trust !in req.trust
    case OutsideResidency => Given(req.residency) && o.region != req.residency && req.residency.value !in o.regions
    case OutsideRegion =>
      Given(req.region) && req.region.value != "nearest" && o.region != req.region && o.region != Some("global")
    case BadHealth => o.health != "up" && o.health != "degraded"
    case TooSlow =>
      req.maxLatency.Some? && LatencyOf(o, req.latencyOp).Some?
      && LatencyOf(o, req.latencyOp).value > req.maxLatency.value
    case FewCores => o.capacity.cpuFree.Some? && o.capacity.cpuFree.value < req.cpu && req.cpu != 0.0
    case LittleMemory => o.capacity.memoryFree.Some? && o.capacity.memoryFree.value < req.memory && req.memory != 0.0
    case NoGpu => req.gpu && !o.capacity.gpu
    case NoWorker(kind) =>
      kind != "" && "worker:" + kind in req.capabilities && kind in o.capacity.workers
      && o.capacity.workers[kind] == 0.0
  }

  lemma {:induction false} FirstMissed(wanted: seq<string>, o: Offer)
    ensures FirstLacking(wanted, o.capabilities).Some? ==>
              FirstLacking(wanted, o.capabilities).value in wanted
              && FirstLacking(wanted, o.capabilities).value !in o.capabilities
    ensures FirstBusy(wanted, o).Some? ==>
              var kind := FirstBusy(wanted, o).value;
              kind != "" && "worker:" + kind in wanted && kind in o.capacity.workers && o.capacity.workers[kind] == 0.0
    decreases |wanted|
  {
    if wanted != [] {
      FirstMissed(wanted[1..], o);
      if Busy(o, wanted[0]) { assert wanted[0] == "worker:" + wanted[0][7..]; }
    }
  }

  /** The reason plan gives for an offer is true of it. */
  lemma VerdictIsTrue(req: Requirements, o: Offer, ctx: Context)
    ensures
      match Judge(req, o, ctx)
      case Gated(g) => Misses(req, o, g)
      case OverCost =>
        req.maxCost.Some? && (EstimateCost(req, o, ctx).None? || EstimateCost(req, o, ctx).value > req.maxCost.value)
      case Unpriced => EstimateCost(req, o, ctx).None? && req.maxCost.None?
      case NoChance => o.id in ctx.success && ctx.success[o.id] <= 0.0
      case Open(cost, latency) => EstimateCost(req, o, ctx) == Some(cost) && latency == LatencyOf(o, req.latencyOp)
  {
    FirstMissed(req.capabilities, o);
  }

  // -- The choice -------------------------------------------------------------

  /** An id is among the candidates. */
  ghost predicate Competes(cs: seq<Scored>, id: Option<string>) {
    Given(id) && exists k :: 0 <= k < |cs| && cs[k].id == id.value
  }

  lemma CompetitorIs(cs: seq<Scored>, id: Option<string>)
    ensures Competitor(cs, id) < |cs| <==> Competes(cs, id)
    ensures Competitor(cs, id) < |cs| ==> Some(cs[Competitor(cs, id)].id) == id
  {
  }

  /**
   * Critical work, and work for which correctness counts, stays with its authority while that competes, else where it
   * runs, and moves only when neither does.
   */
  lemma AuthorityKeeps(given: Requirements, offers: seq<Offer>, ctx: Context)
    requires given.objective == Some("correctness") || given.latencyClass == "critical"
    requires Planned(given, offers, ctx).selected.Some?
    ensures
      var r := Planned(given, offers, ctx);
      && (Competes(r.ranked, given.authority) ==> r.selected == given.authority)
      && (!Competes(r.ranked, given.authority) && Competes(r.ranked, ctx.current) ==> r.selected == ctx.current)
      && (!Competes(r.ranked, given.authority) && !Competes(r.ranked, ctx.current) ==>
        r.selected == Some(r.ranked[0].id))
  {
    var r := Planned(given, offers, ctx);
    CompetitorIs(r.ranked, given.authority);
    CompetitorIs(r.ranked, ctx.current);
  }

  /** Private and first-party work that names no trust goes to first-party capacity only. */
  lemma PrivateStays(given: Requirements, offers: seq<Offer>, ctx: Context)
    requires given.objective == Some("private") || given.objective == Some("first-party-only")
    requires given.trust == [] && Planned(given, offers, ctx).selected.Some?
    ensures exists o :: o in offers && Planned(given, offers, ctx).selected == Some(o.id) && o.trust == "first-party"
  {
    SelectionIsSafe(given, offers, ctx);
    var i :| 0 <= i < |offers| && offers[i].id == Planned(given, offers, ctx).selected.value
             && Selectable(Tighten(given), offers[i], ctx);
    assert offers[i] in offers;
  }

  /** Whoever asks for anything else has the requirements taken as they are. */
  lemma OthersAsGiven(given: Requirements)
    requires given.trust != [] || (given.objective != Some("private") && given.objective != Some("first-party-only"))
    ensures Tighten(given) == given
    ensures !Given(given.objective) ==> ObjectiveOf(given) == "balanced"
    ensures Given(given.objective) ==> Some(ObjectiveOf(given)) == given.objective
  {
  }

  /** Of candidates that nobody is ahead of, the first one leads the ranking. */
  lemma {:induction false} FirstOfBest(cs: seq<Scored>) returns (m: nat)
    requires cs != []
    ensures m < |cs| && IsHead(cs, m)
    ensures Rank(cs) != [] && Rank(cs)[0] == cs[m]
    decreases |cs|
  {
    var n := |cs| - 1;
    var (front, last) := (cs[..n], cs[n]);
    if n == 0 {
      m := 0;
    } else {
      m := FirstOfBest(front);
      HeadOfMore(front, last, m);
      assert cs == front + [last];
      SlotHead(last, Rank(front));
      if Ahead(last, front[m]) { m := n; }
    }
  }

  lemma SlotHead(c: Scored, sorted: seq<Scored>)
    requires sorted != []
    ensures Slot(c, sorted) != [] && Slot(c, sorted)[0] == if Ahead(c, sorted[0]) then c else sorted[0]
  {
  }

  lemma HeadOfMore(front: seq<Scored>, last: Scored, m: nat)
    requires m < |front| && IsHead(front, m)
    ensures IsHead(front + [last], if Ahead(last, front[m]) then |front| else m)
  {
    if Ahead(last, front[m]) {
      forall i | 0 <= i < |front| ensures Ahead(last, front[i]) && !Ahead(front[i], last) {
        AheadIsOrder(last, front[m], front[i]);
      }
    }
  }

  lemma AheadIsOrder(a: Scored, b: Scored, c: Scored)
    ensures Ahead(a, b) && !Ahead(c, b) ==> Ahead(a, c)
    ensures Ahead(a, c) ==> !Ahead(c, a)
    ensures !Ahead(a, a)
  {
  }

  ghost predicate IsHead(cs: seq<Scored>, m: nat)
    requires m < |cs|
  {
    && (forall i :: 0 <= i < |cs| ==> !Ahead(cs[i], cs[m]))
    && (forall i :: 0 <= i < m ==> Ahead(cs[m], cs[i]))
  }
}
