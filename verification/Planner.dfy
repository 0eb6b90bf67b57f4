/**
 * plan (src/placement.js): where a workload runs. Hard constraints first, then a score, then hysteresis.
 * Money and latency are reals; an unpriced offer costs Infinity, modelled as Unpriced.
 */
module Planner {
  import opened Prelude

  datatype Capacity = Capacity(cpuFree: Option<real>, memoryFree: Option<real>, gpu: bool, load: seq<real>,
      workers: map<string, real>)

  datatype Pricing = Pricing(prepaid: bool, rateCard: Option<string>, perUnit: Option<real>)

  datatype Offer = Offer(
    id: string, capabilities: seq<string>, trust: string, owner: Option<string>, region: Option<string>,
    regions: seq<string>,
    health: string, streaming: bool, latencies: seq<(string, real)>, capacity: Capacity, provider: Option<string>,
    tag: Option<string>, pricing: Option<Pricing>)

  datatype Requirements = Requirements(
    capabilities: seq<string>, trust: seq<string>, residency: Option<string>, region: Option<string>,
    latencyOp: Option<string>,
    maxLatency: Option<real>, cpu: real, memory: real, gpu: bool, maxCost: Option<real>, units: real,
    latencyClass: string,
    objective: Option<string>, authority: Option<string>, kind: Option<string>)

  datatype Card = Card(provider: string, metric: string, free: real, unitSize: real, unitPrice: real)

  datatype State = State(
    usage: map<string, real>, start: Option<real>, end: Option<real>, forecast: map<string, real>,
    reserve: map<string, real>)

  datatype Owned = Owned(busy: real, full: real, maxUsd: real)

  datatype Weights = Weights(cost: real, latency: real)

  datatype Context = Context(
    now: real, owned: Owned, cards: map<string, Card>, states: map<string, State>, current: Option<string>,
    minGain: real,
    weights: Weights, success: map<string, real>)

  const DEFAULT_TRUST := ["first-party", "partner", "community", "external"]

  // -- Cost -------------------------------------------------------------------

  function PriceOf(card: Card, free: real, units: real): real {
    var billable := RealMax(0.0, units - free);
    var size := if card.unitSize == 0.0 then 1.0 else card.unitSize;
    if billable == 0.0 then 0.0 else Times(billable / size, card.unitPrice)
  }

  function Forecast(used: real, start: real, end: real, now: real): real {
    var elapsed := RealMax(1.0, now - start);
    var total := RealMax(elapsed, end - start);
    Times(used, total / elapsed)
  }

  function Lookup(m: map<string, real>, k: string): real { if k in m then m[k] else 0.0 }

  function Expected(card: Card, state: Option<State>, now: real): real {
    if state.None? then Forecast(0.0, now, now, now)
    else
      var s := state.value;
      if card.metric in s.forecast then s.forecast[card.metric]
      else Forecast(Lookup(s.usage, card.metric), s.start.GetOr(now), s.end.GetOr(now), now)
  }

  /** The free allowance less the share kept for higher-priority work. */
  function Allowance(card: Card, state: Option<State>, high: bool): real {
    var share := if high || state.None? then 0.0 else Lookup(state.value.reserve, card.metric);
    Times(card.free, 1.0 - share)
  }

  function Marginal(card: Card, free: real, expected: real, projected: real): real {
    RealMax(0.0, PriceOf(card, free, expected + projected) - PriceOf(card, free, expected))
  }

  function MarginalCost(card: Card, state: Option<State>, projected: real, now: real, high: bool): real {
    Marginal(card, Allowance(card, state, high), Expected(card, state, now), projected)
  }

  function Busiest(load: seq<real>): (u: real)
    ensures u >= 0.0 && forall i :: 0 <= i < |load| ==> load[i] <= u
  {
    if load == [] then 0.0 else RealMax(load[0], Busiest(load[1..]))
  }

  function OwnedLoadCost(load: seq<real>, o: Owned): real {
    var u := Busiest(load);
    if u <= o.busy then 0.0
    else if u >= o.full then o.maxUsd
    else
      var x := (u - o.busy) / (o.full - o.busy);
      Times(o.maxUsd, Times(x, x))
  }

  /** The price of units beyond the allowance, at one rate. */
  function Rate(card: Card): real
    requires card.unitSize > 0.0
  {
    card.unitPrice / card.unitSize
  }

  lemma PriceIsLinear(card: Card, free: real, units: real)
    requires card.unitSize > 0.0 && card.unitPrice >= 0.0
    ensures PriceOf(card, free, units) == Times(RealMax(0.0, units - free), Rate(card)) && Rate(card) >= 0.0
  {
    var b := RealMax(0.0, units - free);
    TimesOne(Rate(card));
    Quotient(card.unitPrice, card.unitSize);
    Quotient(b, card.unitSize);
    TimesCancel(0.0, Rate(card), card.unitSize);
    TimesOne(card.unitSize);
    TimesGroup(b / card.unitSize, Rate(card), card.unitSize);
    TimesSum(b / card.unitSize, 0.0, Rate(card));
    TimesGroup(Rate(card), b / card.unitSize, card.unitSize);
    TimesSum(Rate(card), 0.0, b);
  }

  /**
   * Marginal cost charges exactly the part of the projected units that falls beyond the allowance: nothing while the
   * allowance lasts, the full rate when the forecast says it runs out anyway, and never less later in the period.
   */
  lemma MarginalIsFair(card: Card, free: real, expected: real, projected: real, more: real)
    requires card.unitSize > 0.0 && card.unitPrice >= 0.0 && 0.0 <= projected <= more
    ensures 0.0 <= Marginal(card, free, expected, projected) <= Times(projected, Rate(card))
    ensures expected + projected <= free ==> Marginal(card, free, expected, projected) == 0.0
    ensures expected >= free ==> Marginal(card, free, expected, projected) == Times(projected, Rate(card))
    ensures Marginal(card, free, expected, projected) <= Marginal(card, free, expected, more)
  {
    MarginalIs(card, free, expected, projected);
    MarginalIs(card, free, expected, more);
    PriceIsLinear(card, free, expected);
    var r := Rate(card);
    TimesOne(r);
    TimesOrder(Beyond(free, expected, projected), projected, r);
    TimesOrder(0.0, Beyond(free, expected, projected), r);
    TimesOrder(Beyond(free, expected, projected), Beyond(free, expected, more), r);
  }

  /** Of `projected` more units, those past the allowance. */
  function Beyond(free: real, expected: real, projected: real): real {
    RealMax(0.0, expected + projected - free) - RealMax(0.0, expected - free)
  }

  lemma MarginalIs(card: Card, free: real, expected: real, projected: real)
    requires card.unitSize > 0.0 && card.unitPrice >= 0.0 && 0.0 <= projected
    ensures Marginal(card, free, expected, projected) == Times(Beyond(free, expected, projected), Rate(card))
  {
    PriceIsLinear(card, free, expected);
    PriceIsLinear(card, free, expected + projected);
    TimesSum(RealMax(0.0, expected + projected - free), RealMax(0.0, expected - free), Rate(card));
    TimesOrder(0.0, Beyond(free, expected, projected), Rate(card));
    TimesOne(Rate(card));
  }

  /** A period that is expected to use more never makes the same work cheaper. */
  lemma MarginalGrows(card: Card, free: real, expected: real, later: real, projected: real)
    requires card.unitSize > 0.0 && card.unitPrice >= 0.0 && 0.0 <= projected && expected <= later
    ensures Marginal(card, free, expected, projected) <= Marginal(card, free, later, projected)
  {
    MarginalIs(card, free, expected, projected);
    MarginalIs(card, free, later, projected);
    PriceIsLinear(card, free, expected);
    TimesOrder(Beyond(free, expected, projected), Beyond(free, later, projected), Rate(card));
  }

  /** Owned capacity is free until busy, never dearer than its maximum, and a busier node never looks cheaper. */
  lemma OwnedLoadGrows(load: seq<real>, more: seq<real>, o: Owned)
    requires o.busy < o.full && o.maxUsd >= 0.0 && Busiest(load) <= Busiest(more)
    ensures 0.0 <= OwnedLoadCost(load, o) <= OwnedLoadCost(more, o) <= o.maxUsd
    ensures (forall i :: 0 <= i < |load| ==> load[i] <= o.busy) && o.busy >= 0.0 ==> OwnedLoadCost(load, o) == 0.0
  {
    var (u, v, w) := (Busiest(load), Busiest(more), o.full - o.busy);
    LoadIsAnElement(load);
    if o.busy < u < o.full { LoadShare(u, o); }
    if o.busy < v < o.full { LoadShare(v, o); }
    if o.busy < u <= v < o.full {
      var (x, y) := ((u - o.busy) / w, (v - o.busy) / w);
      Quotient(u - o.busy, w);
      Quotient(v - o.busy, w);
      TimesCancel(x, y, w);
      TimesOrder(x, y, x);
      TimesOrder(x, y, y);
      TimesOrder(Times(x, x), Times(y, y), o.maxUsd);
    }
  }

  lemma LoadShare(u: real, o: Owned)
    requires o.busy < u < o.full && o.maxUsd >= 0.0
    ensures
      var x := (u - o.busy) / (o.full - o.busy);
      0.0 <= x <= 1.0 && 0.0 <= Times(x, x) <= 1.0 && 0.0 <= Times(o.maxUsd, Times(x, x)) <= o.maxUsd
  {
    var x := (u - o.busy) / (o.full - o.busy);
    Proportion(u - o.busy, o.full - o.busy);
    TimesShrink(x, x);
    TimesShrink(Times(x, x), o.maxUsd);
  }

  lemma {:induction false} LoadIsAnElement(load: seq<real>)
    ensures Busiest(load) == 0.0 || exists i :: 0 <= i < |load| && load[i] == Busiest(load)
    decreases |load|
  {
    if load != [] {
      LoadIsAnElement(load[1..]);
      if Busiest(load) != 0.0 {
        if Busiest(load) == load[0] {
          assert load[0] == Busiest(load);
        } else {
          var rest := load[1..];
          var i :| 0 <= i < |rest| && rest[i] == Busiest(rest);
          assert load[i + 1] == Busiest(load);
        }
      }
    }
  }

  // -- Hard constraints -------------------------------------------------------

  datatype Gate =
    | Lacks(capability: string) | WrongTrust | OutsideResidency | OutsideRegion | BadHealth | TooSlow
    | FewCores | LittleMemory | NoGpu | NoWorker(kind: string)

  predicate Mentions95(name: string)
    decreases |name|
  {
    |name| >= 3 && (name[..3] == "p95" || Mentions95(name[1..]))
  }

  function Named(latencies: seq<(string, real)>, op: string): Option<real>
    decreases |latencies|
  {
    if latencies == [] then None else if latencies[0].0 == op then Some(latencies[0].1) else Named(latencies[1..], op)
  }

  function Fastest95(latencies: seq<(string, real)>): Option<real>
    decreases |latencies|
  {
    if latencies == [] then None
    else
      var rest := Fastest95(latencies[1..]);
      if !Mentions95(latencies[0].0) then rest
      else if rest.None? then Some(latencies[0].1) else Some(RealMin(latencies[0].1, rest.value))
  }

  function LatencyOf(o: Offer, op: Option<string>): Option<real> {
    if Given(op) && Named(o.latencies, op.value).Some? then Named(o.latencies, op.value) else Fastest95(o.latencies)
  }

  function TrustOf(req: Requirements): seq<string> { if req.trust == [] then DEFAULT_TRUST else req.trust }

  function FirstLacking(wanted: seq<string>, have: seq<string>): Option<string>
    decreases |wanted|
  {
    if wanted == [] then None else if wanted[0] !in have then Some(wanted[0]) else FirstLacking(wanted[1..], have)
  }

  /** The kind after `worker:`, if the capability names one. */
  function WorkerKind(capability: string): Option<string> {
    if |capability| > 7 && capability[..7] == "worker:" then Some(capability[7..]) else None
  }

  predicate Busy(o: Offer, capability: string) {
    var kind := WorkerKind(capability);
    kind.Some? && kind.value in o.capacity.workers && o.capacity.workers[kind.value] == 0.0
  }

  function FirstBusy(wanted: seq<string>, o: Offer): Option<string>
    decreases |wanted|
  {
    if wanted == [] then None else if Busy(o, wanted[0]) then WorkerKind(wanted[0]) else FirstBusy(wanted[1..], o)
  }

  predicate TooSlowFor(req: Requirements, o: Offer) {
    var lat := LatencyOf(o, req.latencyOp);
    req.maxLatency.Some? && lat.Some? && lat.value > req.maxLatency.value
  }

  predicate Short(need: real, free: Option<real>) { need != 0.0 && free.Some? && free.value < need }

  /** excluded: the first gate an offer misses. */
  function Excluded(req: Requirements, o: Offer): Option<Gate> {
    var lacking := FirstLacking(req.capabilities, o.capabilities);
    if lacking.Some? then Some(Lacks(lacking.value))
    else if o.trust !in TrustOf(req) then Some(WrongTrust)
    else if Given(req.residency) && o.region != req.residency
        && req.residency.value !in o.regions then Some(OutsideResidency)
    else if Given(req.region) && req.region.value != "nearest" && o.region != req.region
        && o.region != Some("global") then Some(OutsideRegion)
    else if o.health != "up" && o.health != "degraded" then Some(BadHealth)
    else if TooSlowFor(req, o) then Some(TooSlow)
    else if Short(req.cpu, o.capacity.cpuFree) then Some(FewCores)
    else if Short(req.memory, o.capacity.memoryFree) then Some(LittleMemory)
    else if req.gpu && !o.capacity.gpu then Some(NoGpu)
    else
      var busy := FirstBusy(req.capabilities, o);
      if busy.Some? then Some(NoWorker(busy.value)) else None
  }

  /** Every hard constraint, in no order. */
  ghost predicate Passes(req: Requirements, o: Offer) {
    && (forall i :: 0 <= i < |req.capabilities| ==>
      req.capabilities[i] in o.capabilities && HasWorker(o, req.capabilities[i]))
    && (if req.trust == [] then NotOwned(o) else o.trust in req.trust)
    && (Given(req.residency) ==> o.region == req.residency || req.residency.value in o.regions)
    && (Given(req.region) ==> req.region.value == "nearest" || o.region == req.region || o.region == Some("global"))
    && (o.health == "up" || o.health == "degraded")
    && (req.maxLatency.Some? && LatencyOf(o, req.latencyOp).Some? ==>
      LatencyOf(o, req.latencyOp).value <= req.maxLatency.value)
    && (req.cpu != 0.0 && o.capacity.cpuFree.Some? ==> o.capacity.cpuFree.value >= req.cpu)
    && (req.memory != 0.0 && o.capacity.memoryFree.Some? ==> o.capacity.memoryFree.value >= req.memory)
    && (req.gpu ==> o.capacity.gpu)
  }

  /** The classes that are trusted when the work names none: every one but a person's own machine. */
  ghost predicate NotOwned(o: Offer) {
    o.trust == "first-party" || o.trust == "partner" || o.trust == "community" || o.trust == "external"
  }

  ghost predicate AsksWorker(capability: string, kind: string) { kind != "" && capability == "worker:" + kind }

  /** If the capability asks for a kind of worker, the offer has not said that none is free. */
  ghost predicate HasWorker(o: Offer, capability: string) {
    forall kind :: AsksWorker(capability, kind) ==> kind !in o.capacity.workers || o.capacity.workers[kind] != 0.0
  }

  lemma BusyIff(o: Offer, capability: string)
    ensures Busy(o, capability) <==> !HasWorker(o, capability)
  {
    if |capability| > 7 && capability[..7] == "worker:" {
      assert capability == "worker:" + capability[7..];
      assert AsksWorker(capability, capability[7..]);
    }
    forall kind | AsksWorker(capability, kind) ensures WorkerKind(capability) == Some(kind) {
      assert capability[..7] == "worker:" && capability[7..] == kind;
    }
  }

  lemma {:induction false} FirstLackingIs(wanted: seq<string>, o: Offer)
    ensures FirstLacking(wanted, o.capabilities).None? <==> forall i :: 0 <= i < |wanted| ==>
      wanted[i] in o.capabilities
    ensures FirstBusy(wanted, o).None? <==> forall i :: 0 <= i < |wanted| ==> !Busy(o, wanted[i])
    decreases |wanted|
  {
    if wanted != [] {
      FirstLackingIs(wanted[1..], o);
      assert forall i :: 0 < i < |wanted| ==> wanted[i] == wanted[1..][i - 1];
    }
  }

  lemma ExcludedIff(req: Requirements, o: Offer)
    ensures Excluded(req, o).None? <==> Passes(req, o)
  {
    FirstLackingIs(req.capabilities, o);
    forall i | 0 <= i < |req.capabilities|
      ensures Busy(o, req.capabilities[i]) <==> !HasWorker(o, req.capabilities[i])
    {
      BusyIff(o, req.capabilities[i]);
    }
  }

  // -- Candidates -------------------------------------------------------------

  /** Estimated cost in dollars, or None for Infinity: an unpriced offer is never assumed free. */
  function EstimateCost(req: Requirements, o: Offer, ctx: Context): Option<real> {
    var units := if req.units == 0.0 then 1.0 else req.units;
    if o.pricing.None? then None
    else
      var p := o.pricing.value;
      if p.prepaid then Some(Times(OwnedLoadCost(o.capacity.load, ctx.owned), units))
      else if Given(p.rateCard) && p.rateCard.value in ctx.cards then
        var card := ctx.cards[p.rateCard.value];
        var high := req.latencyClass == "critical" || req.latencyClass == "realtime";
        Some(MarginalCost(card, StateOf(card, o, ctx), units, ctx.now, high))
      else if p.perUnit.Some? then Some(Times(p.perUnit.value, units)) else None
  }

  function StateOf(card: Card, o: Offer, ctx: Context): Option<State> {
    if card.provider in ctx.states then Some(ctx.states[card.provider])
    else if o.provider.Some? && o.provider.value in ctx.states then Some(ctx.states[o.provider.value]) else None
  }

  datatype Verdict = Gated(gate: Gate) | OverCost | Unpriced | NoChance | Open(cost: real, latency: Option<real>)

  /** Over the ceiling; Infinity is over every ceiling. */
  predicate Over(cost: Option<real>, ceiling: Option<real>) {
    ceiling.Some? && (cost.None? || cost.value > ceiling.value)
  }

  predicate Hopeless(id: string, success: map<string, real>) { id in success && success[id] <= 0.0 }

  function Judge(req: Requirements, o: Offer, ctx: Context): Verdict {
    var why := Excluded(req, o);
    if why.Some? then Gated(why.value)
    else
      var cost := EstimateCost(req, o, ctx);
      if Over(cost, req.maxCost) then OverCost
      else if cost.None? then Unpriced
      else if Hopeless(o.id, ctx.success) then NoChance
      else Open(cost.value, LatencyOf(o, req.latencyOp))
  }

  /** What an offer must be to be selected at all. */
  ghost predicate Selectable(req: Requirements, o: Offer, ctx: Context) {
    && Passes(req, o) && EstimateCost(req, o, ctx).Some?
    && (req.maxCost.Some? ==> EstimateCost(req, o, ctx).value <= req.maxCost.value)
    && (o.id in ctx.success ==> ctx.success[o.id] > 0.0)
  }

  lemma OpenIff(req: Requirements, o: Offer, ctx: Context)
    ensures Judge(req, o, ctx).Open? <==> Selectable(req, o, ctx)
  {
    ExcludedIff(req, o);
  }

  /** What an unpriced verdict means. */
  lemma UnpricedMeans(req: Requirements, o: Offer, ctx: Context)
    requires Judge(req, o, ctx).Unpriced?
    ensures Passes(req, o) && EstimateCost(req, o, ctx).None?
  {
    ExcludedIff(req, o);
  }

  datatype Scored = Scored(id: string, cost: real, latency: Option<real>, score: real)

  /** The candidates that compete, before they are scored, in the order of the offers. */
  function Competing(req: Requirements, offers: seq<Offer>, ctx: Context): seq<Scored>
    decreases |offers|
  {
    if offers == [] then [] else
      var v := Judge(req, offers[0], ctx);
      (if v.Open? then [Scored(offers[0].id, v.cost, v.latency, 0.0)] else []) + Competing(req, offers[1..], ctx)
  }

  /** A candidate that competes comes from a selectable offer. */
  lemma {:induction false} CompetingFrom(req: Requirements, offers: seq<Offer>, ctx: Context, k: nat)
    requires k < |Competing(req, offers, ctx)|
    ensures FromOffer(Competing(req, offers, ctx)[k], req, offers, ctx)
    decreases |offers|
  {
    var rest := offers[1..];
    var (all, tail) := (Competing(req, offers, ctx), Competing(req, rest, ctx));
    OpenIff(req, offers[0], ctx);
    if |all| > |tail| && k == 0 {
      assert IsFrom(all[0], req, offers[0], ctx);
    } else {
      var j := k - (|all| - |tail|);
      assert all[k] == tail[j];
      CompetingFrom(req, rest, ctx, j);
      var i :| 0 <= i < |rest| && IsFrom(tail[j], req, rest[i], ctx);
      assert IsFrom(all[k], req, offers[i + 1], ctx);
    }
  }

  /** The candidate of a selectable offer competes. */
  lemma {:induction false} CompetingHas(req: Requirements, offers: seq<Offer>, ctx: Context, i: nat)
    requires i < |offers| && Selectable(req, offers[i], ctx)
    ensures
      var c := Scored(offers[i].id, EstimateCost(req, offers[i], ctx).value, LatencyOf(offers[i], req.latencyOp), 0.0);
      c in Competing(req, offers, ctx)
    decreases |offers|
  {
    OpenIff(req, offers[0], ctx);
    if i > 0 { CompetingHas(req, offers[1..], ctx, i - 1); }
  }

  ghost predicate IsFrom(c: Scored, req: Requirements, o: Offer, ctx: Context) {
    o.id == c.id && Selectable(req, o, ctx) && EstimateCost(req, o, ctx) == Some(c.cost)
        && LatencyOf(o, req.latencyOp) == c.latency
  }

  ghost predicate FromOffer(c: Scored, req: Requirements, offers: seq<Offer>, ctx: Context) {
    exists i :: 0 <= i < |offers| && IsFrom(c, req, offers[i], ctx)
  }

  // -- Scores -----------------------------------------------------------------

  /** The cost part of the score: the cost per success when a chance was given. */
  function CostForScore(c: Scored, success: map<string, real>): real {
    if c.id in success && success[c.id] > 0.0 then c.cost / success[c.id] else c.cost
  }

  const LEAST_COST := 0.000000000001

  function MaxCost(cs: seq<Scored>, success: map<string, real>): (m: real)
    ensures m >= LEAST_COST
    ensures forall i :: 0 <= i < |cs| ==> CostForScore(cs[i], success) <= m
  {
    if cs == [] then LEAST_COST else RealMax(CostForScore(cs[0], success), MaxCost(cs[1..], success))
  }

  function MaxLatency(cs: seq<Scored>): (m: real)
    ensures m >= 1.0
    ensures forall i :: 0 <= i < |cs| ==> cs[i].latency.GetOr(m) <= m
  {
    if cs == [] then 1.0 else RealMax(cs[0].latency.GetOr(1.0), MaxLatency(cs[1..]))
  }

  /** Number(x.toFixed(6)): to six decimals, halves away from zero. */
  function Fixed6(x: real): real {
    if x < 0.0 then -((-x * 1000000.0 + 0.5).Floor as real / 1000000.0)
    else (x * 1000000.0 + 0.5).Floor as real / 1000000.0
  }

  function Score(c: Scored, objective: string, weights: Weights, success: map<string, real>, maxCost: real,
      maxLat: real): real
    requires maxCost > 0.0 && maxLat > 0.0
  {
    var nc := CostForScore(c, success) / maxCost;
    var nl := c.latency.GetOr(maxLat) / maxLat;
    Fixed6(if objective == "cheapest" then nc + nl * 0.001
           else if objective == "lowest-latency" then nl + nc * 0.001
           else Times(nc, weights.cost) + Times(nl, weights.latency))
  }

  function Rescored(c: Scored, cs: seq<Scored>, objective: string, weights: Weights,
      success: map<string, real>): Scored {
    c.(score := Score(c, objective, weights, success, MaxCost(cs, success), MaxLatency(cs)))
  }

  function ScoreAll(cs: seq<Scored>, objective: string, weights: Weights, success: map<string, real>): (r: seq<Scored>)
    ensures |r| == |cs|
    ensures forall i :: 0 <= i < |cs| ==> r[i] == Rescored(cs[i], cs, objective, weights, success)
  {
    seq(|cs|, i requires 0 <= i < |cs| => Rescored(cs[i], cs, objective, weights, success))
  }

  /** Strictly ahead: a lower score, or an equal one with a lower latency (an unknown latency is Infinity). */
  predicate Ahead(a: Scored, b: Scored) {
    || a.score < b.score
    || (a.score == b.score && a.latency.Some? && (b.latency.None? || a.latency.value < b.latency.value))
  }

  function Slot(c: Scored, sorted: seq<Scored>): seq<Scored>
    decreases |sorted|
  {
    if sorted == [] then [c] else if Ahead(c, sorted[0]) then [c] + sorted else [sorted[0]] + Slot(c, sorted[1..])
  }

  /** The stable sort the language promises: each candidate goes after the ones it is not ahead of. */
  function Rank(cs: seq<Scored>): seq<Scored>
    decreases |cs|
  {
    if cs == [] then [] else Slot(cs[|cs| - 1], Rank(cs[..|cs| - 1]))
  }

  ghost predicate Ranked(cs: seq<Scored>) {
    forall i, j :: 0 <= i < j < |cs| ==> !Ahead(cs[j], cs[i])
  }

  lemma {:induction false} SlotMembers(c: Scored, sorted: seq<Scored>)
    ensures multiset(Slot(c, sorted)) == multiset(sorted) + multiset{c}
    decreases |sorted|
  {
    if sorted != [] {
      assert sorted == [sorted[0]] + sorted[1..];
      if !Ahead(c, sorted[0]) { SlotMembers(c, sorted[1..]); }
    }
  }

  lemma {:induction false} SlotKeeps(c: Scored, sorted: seq<Scored>)
    requires Ranked(sorted)
    ensures Ranked(Slot(c, sorted))
    decreases |sorted|
  {
    if sorted != [] && !Ahead(c, sorted[0]) {
      var (rest, r) := (sorted[1..], Slot(c, sorted[1..]));
      SlotKeeps(c, rest);
      SlotMembers(c, rest);
      forall j | 0 <= j < |r| ensures !Ahead(r[j], sorted[0]) {
        assert r[j] in multiset(rest) + multiset{c};
        if r[j] != c {
          var k :| 0 <= k < |rest| && rest[k] == r[j];
          assert sorted[k + 1] == r[j];
        }
      }
    }
  }

  lemma {:induction false} RankSorts(cs: seq<Scored>)
    ensures Ranked(Rank(cs)) && multiset(Rank(cs)) == multiset(cs)
    decreases |cs|
  {
    if cs != [] {
      assert cs == cs[..|cs| - 1] + [cs[|cs| - 1]];
      RankSorts(cs[..|cs| - 1]);
      SlotKeeps(cs[|cs| - 1], Rank(cs[..|cs| - 1]));
      SlotMembers(cs[|cs| - 1], Rank(cs[..|cs| - 1]));
    }
  }

  // -- The choice -------------------------------------------------------------

  /** The index of the first candidate with this id, or the number of candidates. */
  function FindId(cs: seq<Scored>, id: string): (i: nat)
    ensures i <= |cs|
    ensures i < |cs| ==> cs[i].id == id
    ensures forall j :: 0 <= j < i ==> cs[j].id != id
  {
    if cs == [] then 0 else if cs[0].id == id then 0 else 1 + FindId(cs[1..], id)
  }

  /** The candidate named, if a name was given and it competes. */
  function Competitor(cs: seq<Scored>, id: Option<string>): (i: nat)
    ensures i <= |cs|
  {
    if Given(id) then FindId(cs, id.value) else |cs|
  }

  function Gain(cur: Scored, best: Scored): real {
    if cur.score > 0.0 then (cur.score - best.score) / cur.score else 0.0
  }

  predicate Critical(req: Requirements) { req.objective == Some("correctness") || req.latencyClass == "critical" }

  /** The index of the candidate that is selected from a ranking. */
  function Choose(req: Requirements, ranked: seq<Scored>, current: Option<string>, minGain: real): (i: nat)
    requires ranked != []
    ensures i < |ranked|
  {
    var cur := Competitor(ranked, current);
    if Critical(req) then
      var authority := Competitor(ranked, req.authority);
      if authority < |ranked| then authority else if cur < |ranked| then cur else 0
    else if cur < |ranked| && cur != 0 && Gain(ranked[cur], ranked[0]) < minGain then cur
    else 0
  }

  /** Private and first-party work never leaves first-party capacity. */
  function Tighten(req: Requirements): Requirements {
    if (req.objective == Some("first-party-only") || req.objective == Some("private"))
        && req.trust == [] then req.(trust := ["first-party"])
    else req
  }

  function ObjectiveOf(req: Requirements): string { if Given(req.objective) then req.objective.value else "balanced" }

  datatype Result = Result(selected: Option<string>, verdicts: seq<Verdict>, ranked: seq<Scored>)

  function RankedFor(req: Requirements, offers: seq<Offer>, ctx: Context): seq<Scored> {
    var cs := Competing(req, offers, ctx);
    Rank(ScoreAll(cs, ObjectiveOf(req), ctx.weights, ctx.success))
  }

  function Planned(given: Requirements, offers: seq<Offer>, ctx: Context): Result {
    var req := Tighten(given);
    var ranked := RankedFor(req, offers, ctx);
    Result(if ranked == [] then None else Some(ranked[Choose(req, ranked, ctx.current, ctx.minGain)].id),
           Verdicts(req, offers, ctx), ranked)
  }

  function Verdicts(req: Requirements, offers: seq<Offer>, ctx: Context): seq<Verdict> {
    seq(|offers|, i requires 0 <= i < |offers| => Judge(req, offers[i], ctx))
  }

  /** Of the judged offers, those that compete. */
  function Competitors(offers: seq<Offer>, verdicts: seq<Verdict>): seq<Scored>
    requires |offers| == |verdicts|
    decreases |offers|
  {
    if offers == [] then [] else
      var (o, v) := (offers[|offers| - 1], verdicts[|offers| - 1]);
      Competitors(offers[..|offers| - 1], verdicts[..|offers| - 1])
      + (if v.Open? then [Scored(o.id, v.cost, v.latency, 0.0)] else [])
  }

  lemma {:induction false} CompetitorsCons(offers: seq<Offer>, verdicts: seq<Verdict>)
    requires |offers| == |verdicts| > 0
    ensures
      var (o, v) := (offers[0], verdicts[0]);
      Competitors(offers, verdicts)
        == (if v.Open? then [Scored(o.id, v.cost, v.latency, 0.0)] else []) + Competitors(offers[1..], verdicts[1..])
    decreases |offers|
  {
    var n := |offers| - 1;
    if n > 0 {
      CompetitorsCons(offers[..n], verdicts[..n]);
      assert offers[1..][..n - 1] == offers[..n][1..] && verdicts[1..][..n - 1] == verdicts[..n][1..];
    }
  }

  lemma {:induction false} CompetitorsCompete(req: Requirements, offers: seq<Offer>, ctx: Context)
    ensures Competitors(offers, Verdicts(req, offers, ctx)) == Competing(req, offers, ctx)
    decreases |offers|
  {
    if offers != [] {
      CompetitorsCons(offers, Verdicts(req, offers, ctx));
      assert Verdicts(req, offers, ctx)[1..] == Verdicts(req, offers[1..], ctx);
      CompetitorsCompete(req, offers[1..], ctx);
    }
  }

  /** The filter of plan: the candidates that compete, in order. */
  method Compete(offers: seq<Offer>, verdicts: seq<Verdict>) returns (ok: seq<Scored>)
    requires |offers| == |verdicts|
    ensures ok == Competitors(offers, verdicts)
  {
    ok := [];
    var i := 0;
    while i < |offers|
      invariant 0 <= i <= |offers| && ok == Competitors(offers[..i], verdicts[..i])
    {
      TakeSnoc(offers, i);
      TakeSnoc(verdicts, i);
      var v := verdicts[i];
      if v.Open? { ok := ok + [Scored(offers[i].id, v.cost, v.latency, 0.0)]; }
      i := i + 1;
    }
    assert offers[..i] == offers && verdicts[..i] == verdicts;
  }

  /** The scoring loop of plan, which writes each candidate's score in place. */
  method ScoreEach(cs: seq<Scored>, objective: string, weights: Weights, success: map<string, real>)
    returns (ok: seq<Scored>)
    ensures ok == ScoreAll(cs, objective, weights, success)
  {
    ok := cs;
    var maxCost := MaxCost(ok, success);
    var maxLat := MaxLatency(ok);
    var i := 0;
    while i < |ok|
      invariant 0 <= i <= |ok| == |cs|
      invariant forall k :: 0 <= k < i ==> ok[k] == Rescored(cs[k], cs, objective, weights, success)
      invariant forall k :: i <= k < |ok| ==> ok[k] == cs[k]
    {
      ok := ok[i := ok[i].(score := Score(ok[i], objective, weights, success, maxCost, maxLat))];
      i := i + 1;
    }
  }

  /** plan, as the source runs it: judge, filter, score in place, sort, choose. */
  method Plan(given: Requirements, offers: seq<Offer>, ctx: Context) returns (r: Result)
    ensures r == Planned(given, offers, ctx)
  {
    var req := Tighten(given);
    var verdicts := Verdicts(req, offers, ctx);
    var ok := Compete(offers, verdicts);
    CompetitorsCompete(req, offers, ctx);
    ok := ScoreEach(ok, ObjectiveOf(req), ctx.weights, ctx.success);
    ok := Rank(ok);
    if ok == [] { return Result(None, verdicts, []); }
    var best := 0;
    var cur := Competitor(ok, ctx.current);
    if Critical(req) {
      var authority := Competitor(ok, req.authority);
      if authority < |ok| {
        best := authority;
      } else if cur < |ok| {
        best := cur;
      }
    } else if cur < |ok| && cur != 0 {
      var gain := Gain(ok[cur], ok[0]);
      if gain < ctx.minGain { best := cur; }
    }
    return Result(Some(ok[best].id), verdicts, ok);
  }

  // -- What the planner promises ----------------------------------------------

  /** Every ranked candidate comes from a selectable offer, and the best come first. */
  lemma RankedAreSelectable(req: Requirements, offers: seq<Offer>, ctx: Context)
    ensures forall c :: c in RankedFor(req, offers, ctx) ==> FromOffer(c, req, offers, ctx)
    ensures Ranked(RankedFor(req, offers, ctx))
  {
    var cs := Competing(req, offers, ctx);
    var scored := ScoreAll(cs, ObjectiveOf(req), ctx.weights, ctx.success);
    RankSorts(scored);
    forall c | c in Rank(scored) ensures FromOffer(c, req, offers, ctx) {
      assert c in multiset(Rank(scored));
      var k :| 0 <= k < |scored| && scored[k] == c;
      CompetingFrom(req, offers, ctx, k);
      var i :| 0 <= i < |offers| && IsFrom(cs[k], req, offers[i], ctx);
      assert IsFrom(c, req, offers[i], ctx);
    }
  }

  /** Every selectable offer is ranked. */
  lemma SelectableAreRanked(req: Requirements, offers: seq<Offer>, ctx: Context, i: nat)
    requires i < |offers| && Selectable(req, offers[i], ctx)
    ensures IsRanked(offers[i], req, offers, ctx)
  {
    var cs := Competing(req, offers, ctx);
    var scored := ScoreAll(cs, ObjectiveOf(req), ctx.weights, ctx.success);
    CompetingHas(req, offers, ctx, i);
    var c := Scored(offers[i].id, EstimateCost(req, offers[i], ctx).value, LatencyOf(offers[i], req.latencyOp), 0.0);
    var k :| 0 <= k < |cs| && cs[k] == c;
    RankSorts(scored);
    assert scored[k] in multiset(Rank(scored));
    assert scored[k] in Rank(scored);
    assert IsFrom(scored[k], req, offers[i], ctx);
  }

  ghost predicate IsRanked(o: Offer, req: Requirements, offers: seq<Offer>, ctx: Context) {
    exists c :: c in RankedFor(req, offers, ctx) && IsFrom(c, req, o, ctx)
  }

  /**
   * No hard constraint is ever broken: the selection passes every gate, is priced, fits the ceiling and has a chance.
   */
  lemma SelectionIsSafe(given: Requirements, offers: seq<Offer>, ctx: Context)
    requires Planned(given, offers, ctx).selected.Some?
    ensures
      exists i :: 0 <= i < |offers| && offers[i].id == Planned(given, offers, ctx).selected.value
                  && Selectable(Tighten(given), offers[i], ctx)
  {
    var req := Tighten(given);
    var ranked := RankedFor(req, offers, ctx);
    RankedAreSelectable(req, offers, ctx);
    var c := ranked[Choose(req, ranked, ctx.current, ctx.minGain)];
    assert FromOffer(c, req, offers, ctx);
    var i :| 0 <= i < |offers| && IsFrom(c, req, offers[i], ctx);
    assert offers[i].id == Planned(given, offers, ctx).selected.value;
  }

  /** Nothing is selected exactly when nothing can be. */
  lemma NothingSelectedIff(given: Requirements, offers: seq<Offer>, ctx: Context)
    ensures Planned(given, offers, ctx).selected.None? <==> forall i :: 0 <= i < |offers| ==>
      !Selectable(Tighten(given), offers[i], ctx)
  {
    var req := Tighten(given);
    var ranked := RankedFor(req, offers, ctx);
    RankedAreSelectable(req, offers, ctx);
    if ranked != [] {
      assert ranked[0] in ranked;
      var i :| 0 <= i < |offers| && IsFrom(ranked[0], req, offers[i], ctx);
      assert Selectable(req, offers[i], ctx);
    } else {
      assert forall i :: 0 <= i < |offers| ==> !IsRanked(offers[i], req, offers, ctx);
      forall i: nat | i < |offers| && Selectable(req, offers[i], ctx) ensures IsRanked(offers[i], req, offers, ctx) {
        SelectableAreRanked(req, offers, ctx, i);
      }
    }
  }

  /**
   * Outside critical and correctness work a competing current placement is left exactly when the best candidate is
   * another one that lowers the score by at least minGain, and the best candidate is never behind any other.
   */
  lemma LeavesOnlyForGain(given: Requirements, offers: seq<Offer>, ctx: Context)
    requires !Critical(Tighten(given))
    requires Competitor(Planned(given, offers, ctx).ranked, ctx.current) < |Planned(given, offers, ctx).ranked|
    ensures
      var r := Planned(given, offers, ctx);
      var (cur, best) := (r.ranked[Competitor(r.ranked, ctx.current)], r.ranked[0]);
      && (r.selected != ctx.current <==> best.id != cur.id && Gain(cur, best) >= ctx.minGain)
      && (r.selected != ctx.current ==> r.selected == Some(best.id))
      && (forall c :: c in r.ranked ==> !Ahead(c, best))
  {
    var r := Planned(given, offers, ctx);
    RankedAreSelectable(Tighten(given), offers, ctx);
    forall c | c in r.ranked ensures !Ahead(c, r.ranked[0]) {
      var k :| 0 <= k < |r.ranked| && r.ranked[k] == c;
    }
  }

  /** With minGain above 0, leaving means the score really falls: below (1 - minGain) of what it was. */
  lemma GainMeans(cur: Scored, best: Scored, minGain: real)
    requires minGain > 0.0
    ensures Gain(cur, best) >= minGain <==> cur.score > 0.0 && best.score <= cur.score - Times(minGain, cur.score)
  {
    if cur.score > 0.0 {
      var g := (cur.score - best.score) / cur.score;
      Quotient(cur.score - best.score, cur.score);
      if g >= minGain { TimesOrder(minGain, g, cur.score); }
      if best.score <= cur.score - Times(minGain, cur.score) { TimesCancel(minGain, g, cur.score); }
    }
  }

  /** No flapping: planning again with the answer as the current placement gives the same answer. */
  lemma ReplanIsStable(given: Requirements, offers: seq<Offer>, ctx: Context)
    ensures
      var answer := Planned(given, offers, ctx).selected;
      Planned(given, offers, ctx.(current := answer)).selected == answer
  {
    var r := Planned(given, offers, ctx);
    var again := ctx.(current := r.selected);
    SameRanking(Tighten(given), offers, ctx, again);
  }

  /** The current placement does not enter the ranking. */
  lemma SameRanking(req: Requirements, offers: seq<Offer>, a: Context, b: Context)
    requires a.(current := b.current) == b
    ensures RankedFor(req, offers, a) == RankedFor(req, offers, b)
  {
    SameCompeting(req, offers, a, b);
  }

  lemma {:induction false} SameCompeting(req: Requirements, offers: seq<Offer>, a: Context, b: Context)
    requires a.(current := b.current) == b
    ensures Competing(req, offers, a) == Competing(req, offers, b)
    decreases |offers|
  {
    if offers != [] { SameCompeting(req, offers[1..], a, b); }
  }
}
