/**
 * planAi (src/placement.js): the AI Exchange's planner. Hard gates and an integer cost ceiling first, then the expected
 * cost of one success, then hysteresis. Everyone is accounted for, and thin evidence changes nothing.
 *
 * The language's sort is any function that returns a permutation, and a sorted one when the comparator is an order.
 */
module PlanAi {
  import opened Prelude
  import opened Money

  datatype Candidate = Candidate(
    id: string, model: string, artifact: string, access: string, paid: bool, privacyPolicy: Option<string>,
    tier: Option<string>,
    capabilities: set<string>, context: Option<real>, status: Option<string>, unhealthy: bool, latency: Option<real>)

  datatype Needs = Needs(
    exact: Option<string>, paid: bool, allowRestricted: bool, privacy: Option<string>, trust: seq<string>,
    capabilities: seq<string>,
    context: Option<real>, maxNano: Option<Amount>, maxUsd: Option<real>, objective: Option<string>)

  /** `p` and `confidence` are None when they are not finite numbers. */
  datatype Evidence = Evidence(p: Option<real>, confidence: Option<real>, samples: real, source: Option<string>)

  datatype Options = Options(
    usage: Usage, rates: map<string, Rates>, evidence: map<string, Evidence>, current: Option<string>, minGain: real,
    pFloor: real, prior: real, sparseFloor: real)

  // -- The gates --------------------------------------------------------------

  datatype Reason =
    | ExactModel | NoRight | PaidRight | RestrictedRight | Privacy | Tier | LacksCap(cap: string)
    | Context | Status | Unhealthy
    | NoRate | OverCeiling | NoChanceOfSuccess | Dearer

  const PAID_ACCESS := {"OWN_DEPLOYMENT", "AUTHORIZED_WHOLESALE"}
  const PRIVACY_CLASSES := ["zero_retention", "no_training", "standard", "unknown"]
  const MODEL_CAPABILITIES := {"tools", "json", "vision", "stream"}
  const SERVING := {"ready", "warming", "degraded"}

  /** indexOf: the first index, or -1. */
  function IndexOf(s: seq<string>, x: string): (i: int)
    ensures -1 <= i < |s| && (i == -1 <==> x !in s) && (i >= 0 ==> s[i] == x && x !in s[..i])
  {
    if s == [] then -1 else if s[0] == x then 0 else
      var j := IndexOf(s[1..], x);
      if j == -1 then -1 else
        assert s[..j + 1] == [s[0]] + s[1..][..j];
        j + 1
  }

  function PrivacyOf(c: Candidate): string {
    if Given(c.privacyPolicy) then c.privacyPolicy.value
    else if c.tier == Some("first_party") || c.tier == Some("owner_node") then "zero_retention"
    else if c.tier == Some("approved_wholesale") then "standard"
    else "unknown"
  }

  /** One of the known classes, and no looser than the one asked for. */
  predicate WithinPrivacy(have: string, asked: string) {
    0 <= IndexOf(PRIVACY_CLASSES, have) <= IndexOf(PRIVACY_CLASSES, asked)
  }

  function FirstMissing(wanted: seq<string>, have: set<string>): Option<string>
    decreases |wanted|
  {
    if wanted == [] then None
    else if wanted[0] in MODEL_CAPABILITIES && wanted[0] !in have then Some(wanted[0])
    else FirstMissing(wanted[1..], have)
  }

  function StatusOf(c: Candidate): Option<string> {
    if Given(c.status) then c.status else if c.unhealthy then Some("offline") else None
  }

  /** aiExcluded, in the order of its gates. */
  function AiExcluded(n: Needs, c: Candidate): Option<Reason> {
    var missing := FirstMissing(n.capabilities, c.capabilities);
    if Given(n.exact) && c.model != n.exact.value && c.artifact != n.exact.value then Some(ExactModel)
    else if (c.paid || n.paid) && c.access == "" then Some(NoRight)
    else if (c.paid || n.paid) && c.access !in PAID_ACCESS then Some(PaidRight)
    else if !(c.paid || n.paid) && c.access != "" && c.access !in PAID_ACCESS
        && n.allowRestricted then Some(RestrictedRight)
    else if Given(n.privacy) && !WithinPrivacy(PrivacyOf(c), n.privacy.value) then Some(Privacy)
    else if n.trust != [] && Given(c.tier) && c.tier.value !in n.trust then Some(Tier)
    else if missing.Some? then Some(LacksCap(missing.value))
    else if n.context.Some? && c.context.Some? && c.context.value < n.context.value then Some(Context)
    else if StatusOf(c).Some? && StatusOf(c).value !in SERVING then Some(Status)
    else if c.unhealthy then Some(Unhealthy)
    else None
  }

  /** A right that may serve a paid route. */
  ghost predicate PaidRightHeld(access: string) { access == "OWN_DEPLOYMENT" || access == "AUTHORIZED_WHOLESALE" }

  /** One of the four capabilities a model declares; others are the caller's own. */
  ghost predicate IsModelCapability(cap: string) {
    cap == "tools" || cap == "json" || cap == "vision" || cap == "stream"
  }

  /** The classes of privacy from the strictest, 0, to the loosest, 3; any other word is none of them. */
  ghost predicate HasLooseness(grade: string, n: int) {
    || (grade == "zero_retention" && n == 0) || (grade == "no_training" && n == 1)
    || (grade == "standard" && n == 2) || (grade == "unknown" && n == 3)
  }

  /** A candidate's grade: its policy, else what its tier stands for. */
  ghost predicate HasPrivacy(c: Candidate, grade: string) {
    if c.privacyPolicy.Some? && c.privacyPolicy.value != "" then grade == c.privacyPolicy.value
    else if c.tier == Some("first_party") || c.tier == Some("owner_node") then grade == "zero_retention"
    else if c.tier == Some("approved_wholesale") then grade == "standard"
    else grade == "unknown"
  }

  ghost predicate KeepsPrivacy(c: Candidate, asked: string) {
    exists grade, have, most :: IsNoLooser(c, asked, grade, have, most)
  }

  ghost predicate IsNoLooser(c: Candidate, asked: string, grade: string, have: int, most: int) {
    HasPrivacy(c, grade) && HasLooseness(grade, have) && HasLooseness(asked, most) && have <= most
  }

  lemma KeepsPrivacyIff(c: Candidate, asked: string)
    ensures KeepsPrivacy(c, asked) <==> WithinPrivacy(PrivacyOf(c), asked)
  {
    LoosenessIs(PrivacyOf(c));
    LoosenessIs(asked);
    assert HasPrivacy(c, PrivacyOf(c));
    if WithinPrivacy(PrivacyOf(c), asked) {
      var (have, most) := (IndexOf(PRIVACY_CLASSES, PrivacyOf(c)), IndexOf(PRIVACY_CLASSES, asked));
      assert IsNoLooser(c, asked, PrivacyOf(c), have, most);
    }
  }

  lemma LoosenessIs(grade: string)
    ensures forall n :: HasLooseness(grade, n) <==> n >= 0 && n == IndexOf(PRIVACY_CLASSES, grade)
  {
    var i := IndexOf(PRIVACY_CLASSES, grade);
    assert i >= 0 ==> PRIVACY_CLASSES[i] == grade;
    assert PRIVACY_CLASSES[0] == "zero_retention" && PRIVACY_CLASSES[1] == "no_training";
    assert PRIVACY_CLASSES[2] == "standard" && PRIVACY_CLASSES[3] == "unknown";
  }

  /** Every gate, in no order. */
  ghost predicate PassesGates(n: Needs, c: Candidate) {
    && (Given(n.exact) ==> c.model == n.exact.value || c.artifact == n.exact.value)
    && (c.paid || n.paid ==> PaidRightHeld(c.access))
    && (!c.paid && !n.paid && n.allowRestricted ==> c.access == "" || PaidRightHeld(c.access))
    && (Given(n.privacy) ==> KeepsPrivacy(c, n.privacy.value))
    && (n.trust != [] && Given(c.tier) ==> c.tier.value in n.trust)
    && (forall i :: 0 <= i < |n.capabilities| && IsModelCapability(n.capabilities[i]) ==>
      n.capabilities[i] in c.capabilities)
    && (n.context.Some? && c.context.Some? ==> c.context.value >= n.context.value)
    && !c.unhealthy
    && (Given(c.status) ==> c.status.value == "ready" || c.status.value == "warming" || c.status.value == "degraded")
  }

  lemma {:induction false} FirstMissingIs(wanted: seq<string>, have: set<string>)
    ensures FirstMissing(wanted, have).None? <==> forall i :: 0 <= i < |wanted| && IsModelCapability(wanted[i]) ==>
      wanted[i] in have
    decreases |wanted|
  {
    if wanted != [] {
      FirstMissingIs(wanted[1..], have);
      assert forall i :: 0 < i < |wanted| ==> wanted[i] == wanted[1..][i - 1];
    }
  }

  lemma GatesIff(n: Needs, c: Candidate)
    ensures AiExcluded(n, c).None? <==> PassesGates(n, c)
  {
    if Given(n.privacy) { KeepsPrivacyIff(c, n.privacy.value); }
    FirstMissingIs(n.capabilities, c.capabilities);
  }

  /** Allowing restricted rights lets nobody in: it leaves out those candidates of an unpaid route that hold one. */
  lemma AllowRestrictedExcludes(n: Needs, c: Candidate)
    ensures
      var (with, without) := (n.(allowRestricted := true), n.(allowRestricted := false));
      var restricted := c.access != "" && !PaidRightHeld(c.access);
      AiExcluded(with, c).None? <==> AiExcluded(without, c).None? && !restricted
  {
    GatesIff(n.(allowRestricted := true), c);
    GatesIff(n.(allowRestricted := false), c);
  }

  // -- Quality ----------------------------------------------------------------

  datatype Quality = Quality(p: real, confidence: real, samples: real, sparse: bool, source: string)

  function Source(e: Evidence, otherwise: string): string { if Given(e.source) then e.source.value else otherwise }

  predicate Sparse(e: Evidence, floor: real) { e.confidence.None? || e.confidence.value <= 0.0 || e.samples < floor }

  function QualityOf(ev: Option<Evidence>, prior: real, floor: real): Quality {
    if ev.None? then Quality(prior, 0.0, 0.0, true, "prior")
    else
      var e := ev.value;
      if e.p.None? || e.p.value <= 0.0 then Quality(0.0, 0.0, e.samples, true, Source(e, "evidence"))
      else if Sparse(e, floor) then Quality(Clamp(prior), 0.0, e.samples, true, Source(e, "sparse_evidence"))
      else
        var trust := RealMin(1.0, e.confidence.value);
        Quality(Clamp(Times(trust, e.p.value) + Times(1.0 - trust, prior)), trust, e.samples, false,
            Source(e, "evidence"))
  }

  // -- Verdicts ---------------------------------------------------------------

  datatype Scored = Scored(
    id: string, model: string, expected: int, p: real, confidence: real, samples: real, sparse: bool, source: string,
    perSuccess: int,
    latency: Option<real>)

  datatype Verdict = Threw | Out(why: Reason) | In(s: Scored)

  /** Math.ceil. */
  function Ceil(x: real): int { -((-x).Floor) }

  /** The ceiling in nano-USD, if there is one. */
  function Limit(n: Needs): Option<Result<int>> {
    if n.maxNano.Some? then Some(NanoUsd(n.maxNano.value))
    else if n.maxUsd.Some? then Some(Ok(Ceil(n.maxUsd.value * (NANO as real)))) else None
  }

  function EvidenceOf(o: Options, id: string): Option<Evidence> {
    if id in o.evidence then Some(o.evidence[id]) else None
  }

  function Score(c: Candidate, expected: int, q: Quality, o: Options): Verdict {
    if q.p <= 0.0 then Out(NoChanceOfSuccess)
    else
      var cps := CostPerSuccess(expected, q.p, o.pFloor);
      if cps.None? then Out(NoChanceOfSuccess)
      else In(Scored(c.id, c.model, expected, q.p, q.confidence, q.samples, q.sparse, q.source, cps.value, c.latency))
  }

  /** What the loop of planAi makes of one candidate; a malformed amount of money throws. */
  function Evaluate(n: Needs, c: Candidate, o: Options): Verdict {
    var why := AiExcluded(n, c);
    if why.Some? then Out(why.value)
    else if c.id !in o.rates then Out(NoRate)
    else
      var expected := Expected(o.usage, o.rates[c.id]);
      var limit := Limit(n);
      if expected.Bad? then Threw
      else if limit.Some? && limit.value.Bad? then Threw
      else if limit.Some? && expected.value > limit.value.value then Out(OverCeiling)
      else Score(c, expected.value, QualityOf(EvidenceOf(o, c.id), o.prior, o.sparseFloor), o)
  }

  /** A candidate that may be chosen: it passes every gate, has a rate, fits the ceiling and has a chance. */
  ghost predicate Eligible(n: Needs, c: Candidate, o: Options) {
    && PassesGates(n, c) && c.id in o.rates && Expected(o.usage, o.rates[c.id]).Ok?
    && (Limit(n).Some? ==> Limit(n).value.Ok? && Expected(o.usage, o.rates[c.id]).value <= Limit(n).value.value)
    && QualityOf(EvidenceOf(o, c.id), o.prior, o.sparseFloor).p > 0.0
    && RealMax(QualityOf(EvidenceOf(o, c.id), o.prior, o.sparseFloor).p, o.pFloor) >= 0.0000000005
  }

  lemma InIff(n: Needs, c: Candidate, o: Options)
    ensures Evaluate(n, c, o).In? <==> Eligible(n, c, o)
  {
    GatesIff(n, c);
    if c.id in o.rates && Expected(o.usage, o.rates[c.id]).Ok? {
      NoCostIff(Expected(o.usage, o.rates[c.id]).value, QualityOf(EvidenceOf(o, c.id), o.prior, o.sparseFloor).p,
          o.pFloor);
    }
  }

  /** A candidate and its verdict. */
  datatype Entry = Entry(id: string, v: Verdict)

  function Entries(n: Needs, cs: seq<Candidate>, o: Options): (es: seq<Entry>)
    ensures |es| == |cs| && forall i :: 0 <= i < |es| ==> es[i] == Entry(cs[i].id, Evaluate(n, cs[i], o))
  {
    seq(|cs|, i requires 0 <= i < |cs| => Entry(cs[i].id, Evaluate(n, cs[i], o)))
  }

  datatype Rejected = Rejected(id: string, why: Reason)

  predicate HasId(rs: seq<Rejected>, id: string) { exists i :: 0 <= i < |rs| && rs[i].id == id }

  function Reject(rs: seq<Rejected>, id: string, why: Reason): seq<Rejected> {
    if HasId(rs, id) then rs else rs + [Rejected(id, why)]
  }

  /** Candidates without an id are skipped. */
  function ScoredOf(es: seq<Entry>): seq<Scored>
    decreases |es|
  {
    if es == [] then [] else
      var e := es[|es| - 1];
      ScoredOf(es[..|es| - 1]) + (if e.id != "" && e.v.In? then [e.v.s] else [])
  }

  function RejectedOf(es: seq<Entry>): seq<Rejected>
    decreases |es|
  {
    if es == [] then [] else
      var (front, e) := (RejectedOf(es[..|es| - 1]), es[|es| - 1]);
      if e.id != "" && e.v.Out? then Reject(front, e.id, e.v.why) else front
  }

  predicate Throws(es: seq<Entry>) { exists i :: 0 <= i < |es| && es[i].id != "" && es[i].v.Threw? }

  // -- Ranking ----------------------------------------------------------------

  datatype AiWeights = AiWeights(cost: real, latency: real, quality: real)

  function WeightsOf(objective: string): AiWeights {
    if objective == "balanced" then AiWeights(0.7, 0.3, 0.0)
    else if objective == "fastest" then AiWeights(0.2, 0.8, 0.0)
    else if objective == "best" then AiWeights(0.2, 0.0, 0.8)
    else AiWeights(1.0, 0.0, 0.0)
  }

  predicate CostOnly(objective: string) { objective != "balanced" && objective != "fastest" && objective != "best" }

  /** What the comparator depends on besides its two arguments. */
  datatype Ranking = Ranking(objective: string, prior: real, pFloor: real, maxLat: real)

  /** A sparse candidate is priced as if its probability were the prior. */
  function CostOf(s: Scored, r: Ranking): int {
    if s.sparse then CostPerSuccess(s.expected, r.prior, r.pFloor).GetOr(0) else s.perSuccess
  }

  function QualityFor(s: Scored, r: Ranking): real { if s.sparse then r.prior else s.p }

  function LatencyGap(a: Scored, b: Scored, r: Ranking): real {
    if a.latency.Some? && b.latency.Some? && r.maxLat > 0.0 then (a.latency.value - b.latency.value) / r.maxLat else 0.0
  }

  /** How much b has over a in what the objective weighs besides the cost: the comparator's `advantage`. */
  function Lead(a: Scored, b: Scored, r: Ranking): real {
    var w := WeightsOf(r.objective);
    w.latency * LatencyGap(a, b, r) - w.quality * (QualityFor(a, r) - QualityFor(b, r))
  }

  /** At one cost: latency where both are known and differ, else name. */
  predicate Level(a: Scored, b: Scored) {
    if a.latency.Some? && b.latency.Some? && a.latency.value != b.latency.value then a.latency.value < b.latency.value
    else NamesBefore(a.id, b.id)
  }

  /** The comparator puts a before b. */
  predicate Before(a: Scored, b: Scored, r: Ranking) {
    var (ca, cb) := (CostOf(a, r), CostOf(b, r));
    if ca != cb then
      var advantage := Lead(a, b, r);
      if advantage > 0.05 then false else if advantage < -0.05 then true else ca < cb
    else Level(a, b)
  }

  type Sorter = (seq<Scored>, Ranking) -> seq<Scored>

  ghost predicate IsOrder(cs: seq<Scored>, r: Ranking) {
    && (forall a, b :: a in cs && b in cs ==> a == b || Before(a, b, r) || Before(b, a, r))
    && (forall a, b :: a in cs && b in cs ==> !(Before(a, b, r) && Before(b, a, r)))
    && (forall a, b, c :: a in cs && b in cs && c in cs && Before(a, b, r) && Before(b, c, r) ==> Before(a, c, r))
  }

  ghost predicate Sorts(sort: Sorter, cs: seq<Scored>, r: Ranking) {
    && multiset(sort(cs, r)) == multiset(cs)
    && (IsOrder(cs, r) ==> forall i, j :: 0 <= i < j < |sort(cs, r)| ==> !Before(sort(cs, r)[j], sort(cs, r)[i], r))
  }

  ghost predicate GoodSorter(sort: Sorter) { forall cs, r :: Sorts(sort, cs, r) }

  function MaxLat(cs: seq<Scored>): (m: real)
    ensures m >= 0.0
  {
    if cs == [] then 0.0 else RealMax(cs[0].latency.GetOr(0.0), MaxLat(cs[1..]))
  }

  function ObjectiveFor(n: Needs): string { if Given(n.objective) then n.objective.value else "cheapest" }

  // -- The answer -------------------------------------------------------------

  function FindScored(cs: seq<Scored>, id: string): (i: nat)
    ensures i <= |cs| && (i < |cs| ==> cs[i].id == id) && forall j :: 0 <= j < i ==> cs[j].id != id
  {
    if cs == [] then 0 else if cs[0].id == id then 0 else 1 + FindScored(cs[1..], id)
  }

  /** To a thousandth, toward zero. */
  function GainOf(cur: int, best: int): real {
    if cur > 0 then Trunc((cur - best) * 1000, cur) as real / 1000.0 else 0.0
  }

  /** Hysteresis: the current deployment is kept unless the first in the ranking is clearly better. */
  function Keep(best: Scored, cs: seq<Scored>, r: Ranking, o: Options): Scored {
    var i := if Given(o.current) then FindScored(cs, o.current.value) else |cs|;
    if i < |cs| && cs[i] != best && GainOf(CostOf(cs[i], r), CostOf(best, r)) < o.minGain then cs[i] else best
  }

  function RejectRest(rs: seq<Rejected>, cs: seq<Scored>, chosen: string): seq<Rejected>
    decreases |cs|
  {
    if cs == [] then rs
    else
      var (front, s) := (RejectRest(rs, cs[..|cs| - 1], chosen), cs[|cs| - 1]);
      if s.id == chosen then front else Reject(front, s.id, Dearer)
  }

  /** `Failed` is an exception; `estimate` is the expected cost of the chosen candidate. */
  datatype Answer =
    | Disabled
    | Failed
    | Answer(chosen: Option<string>, estimate: Option<int>, rejected: seq<Rejected>, candidates: seq<Scored>)

  function Decide(es: seq<Entry>, objective: string, o: Options, sort: Sorter): Answer {
    if Throws(es) then Failed
    else
      var (scored, rejected) := (ScoredOf(es), RejectedOf(es));
      var r := Ranking(objective, o.prior, o.pFloor, MaxLat(scored));
      var ranked := sort(scored, r);
      if scored == [] || ranked == [] then Answer(None, None, rejected, [])
      else
        var best := Keep(ranked[0], scored, r, o);
        var chosen := Chosen(scored, best.id);
        Answer(Some(chosen.id), Some(chosen.expected), RejectRest(rejected, scored, chosen.id), scored)
  }

  function Chosen(scored: seq<Scored>, id: string): (s: Scored)
    requires scored != []
    ensures s in scored
  {
    var i := FindScored(scored, id);
    scored[if i < |scored| then i else 0]
  }

  function Planned(n: Needs, cs: seq<Candidate>, o: Options, enabled: bool, sort: Sorter): Answer {
    if !enabled then Disabled else Decide(Entries(n, cs, o), ObjectiveFor(n), o, sort)
  }

  /** The loop over the candidates; a malformed amount ends it. */
  method Sift(es: seq<Entry>) returns (thrown: bool, scored: seq<Scored>, rejected: seq<Rejected>)
    ensures thrown == Throws(es)
    ensures !thrown ==> scored == ScoredOf(es) && rejected == RejectedOf(es)
  {
    thrown, scored, rejected := false, [], [];
    var i := 0;
    while i < |es|
      invariant 0 <= i <= |es|
      invariant rejected == RejectedOf(es[..i]) && scored == ScoredOf(es[..i])
      invariant forall k :: 0 <= k < i && es[k].id != "" ==> !es[k].v.Threw?
    {
      var e := es[i];
      TakeSnoc(es, i);
      if e.id != "" {
        match e.v {
          case Threw => return true, scored, rejected;
          case Out(why) => rejected := Reject(rejected, e.id, why);
          case In(s) => scored := scored + [s];
        }
      }
      i := i + 1;
    }
    assert es[..i] == es;
  }

  method Plan(n: Needs, cs: seq<Candidate>, o: Options, enabled: bool, sort: Sorter) returns (a: Answer)
    ensures a == Planned(n, cs, o, enabled, sort)
  {
    if !enabled { return Disabled; }
    var thrown, scored, rejected := Sift(Entries(n, cs, o));
    if thrown { return Failed; }
    var r := Ranking(ObjectiveFor(n), o.prior, o.pFloor, MaxLat(scored));
    var ranked := sort(scored, r);
    if scored == [] || ranked == [] { return Answer(None, None, rejected, []); }
    var best := Keep(ranked[0], scored, r, o);
    var chosen := Chosen(scored, best.id);
    var i := 0;
    ghost var before := rejected;
    while i < |scored|
      invariant 0 <= i <= |scored| && rejected == RejectRest(before, scored[..i], chosen.id)
    {
      TakeSnoc(scored, i);
      if scored[i].id != chosen.id { rejected := Reject(rejected, scored[i].id, Dearer); }
      i := i + 1;
    }
    assert scored[..i] == scored;
    return Answer(Some(chosen.id), Some(chosen.expected), rejected, scored);
  }

  // -- Everyone is accounted for ----------------------------------------------

  ghost predicate Once(rs: seq<Rejected>) { forall i, j :: 0 <= i < j < |rs| ==> rs[i].id != rs[j].id }

  lemma RejectAdds(rs: seq<Rejected>, id: string, why: Reason)
    ensures forall x :: HasId(Reject(rs, id, why), x) <==> HasId(rs, x) || x == id
    ensures Once(rs) ==> Once(Reject(rs, id, why))
  {
    var r := Reject(rs, id, why);
    forall x ensures HasId(r, x) <==> HasId(rs, x) || x == id {
      if HasId(rs, x) { var i :| 0 <= i < |rs| && rs[i].id == x; assert r[i].id == x; }
      if x == id && !HasId(rs, id) { assert r[|rs|].id == x; }
    }
  }

  ghost predicate IsOut(es: seq<Entry>, x: string) {
    exists i :: 0 <= i < |es| && es[i].id == x && x != "" && es[i].v.Out?
  }

  ghost predicate IsIn(es: seq<Entry>, s: Scored) { exists i :: 0 <= i < |es| && es[i].id != "" && es[i].v == In(s) }

  lemma IsOutSnoc(front: seq<Entry>, e: Entry, x: string)
    ensures IsOut(front + [e], x) <==> IsOut(front, x) || (e.id == x && x != "" && e.v.Out?)
  {
    var es := front + [e];
    assert es[|front|] == e && forall i :: 0 <= i < |front| ==> es[i] == front[i];
  }

  lemma IsInSnoc(front: seq<Entry>, e: Entry, s: Scored)
    ensures IsIn(front + [e], s) <==> IsIn(front, s) || (e.id != "" && e.v == In(s))
  {
    var es := front + [e];
    assert es[|front|] == e && forall i :: 0 <= i < |front| ==> es[i] == front[i];
  }

  lemma {:induction false} RejectedAre(es: seq<Entry>, x: string)
    ensures Once(RejectedOf(es))
    ensures HasId(RejectedOf(es), x) <==> IsOut(es, x)
    decreases |es|
  {
    if es != [] {
      var (front, e) := (es[..|es| - 1], es[|es| - 1]);
      RejectedAre(front, x);
      assert es == front + [e];
      IsOutSnoc(front, e, x);
      if e.id != "" && e.v.Out? { RejectAdds(RejectedOf(front), e.id, e.v.why); }
    }
  }

  lemma {:induction false} ScoredAre(es: seq<Entry>, s: Scored)
    ensures s in ScoredOf(es) <==> IsIn(es, s)
    decreases |es|
  {
    if es != [] {
      var (front, e) := (es[..|es| - 1], es[|es| - 1]);
      ScoredAre(front, s);
      assert es == front + [e];
      IsInSnoc(front, e, s);
    }
  }

  ghost predicate Named(cs: seq<Scored>, x: string) { exists i :: 0 <= i < |cs| && cs[i].id == x }

  lemma {:induction false} RestRejected(rs: seq<Rejected>, cs: seq<Scored>, chosen: string, x: string)
    ensures HasId(RejectRest(rs, cs, chosen), x) <==> HasId(rs, x) || (Named(cs, x) && x != chosen)
    ensures Once(rs) ==> Once(RejectRest(rs, cs, chosen))
    decreases |cs|
  {
    if cs != [] {
      var (front, s) := (cs[..|cs| - 1], cs[|cs| - 1]);
      RestRejected(rs, front, chosen, x);
      RejectAdds(RejectRest(rs, front, chosen), s.id, Dearer);
      if Named(front, x) { var i :| 0 <= i < |front| && front[i].id == x; assert cs[i].id == x; }
      if Named(cs, x) {
        var i :| 0 <= i < |cs| && cs[i].id == x;
        if i < |front| { assert front[i].id == x; }
      }
    }
  }

  /** Every candidate has an id of its own. */
  ghost predicate DistinctIds(cs: seq<Candidate>) {
    && (forall i :: 0 <= i < |cs| ==> cs[i].id != "")
    && (forall i, j :: 0 <= i < j < |cs| ==> cs[i].id != cs[j].id)
  }

  ghost predicate IsCandidate(cs: seq<Candidate>, x: string) { exists i :: 0 <= i < |cs| && cs[i].id == x }

  /** A scored candidate carries the id of the candidate it was made from. */
  lemma InHasId(n: Needs, c: Candidate, o: Options)
    requires Evaluate(n, c, o).In?
    ensures Evaluate(n, c, o).s.id == c.id
  {
  }

  lemma NamedIs(n: Needs, cs: seq<Candidate>, o: Options, x: string)
    requires DistinctIds(cs)
    ensures Named(ScoredOf(Entries(n, cs, o)), x) <==> exists i :: 0 <= i < |cs| && cs[i].id == x && Evaluate(n, cs[i], o).In?
  {
    var es := Entries(n, cs, o);
    var scored := ScoredOf(es);
    if Named(scored, x) {
      var k :| 0 <= k < |scored| && scored[k].id == x;
      ScoredAre(es, scored[k]);
      var i :| 0 <= i < |es| && es[i].id != "" && es[i].v == In(scored[k]);
      InHasId(n, cs[i], o);
    }
    if exists i :: 0 <= i < |cs| && cs[i].id == x && Evaluate(n, cs[i], o).In? {
      var i :| 0 <= i < |cs| && cs[i].id == x && Evaluate(n, cs[i], o).In?;
      var s := Evaluate(n, cs[i], o).s;
      InHasId(n, cs[i], o);
      assert es[i].v == In(s) && es[i].id != "";
      ScoredAre(es, s);
      var k :| 0 <= k < |scored| && scored[k] == s;
      assert scored[k].id == x;
    }
  }

  lemma OutIs(n: Needs, cs: seq<Candidate>, o: Options, x: string)
    requires DistinctIds(cs)
    ensures IsOut(Entries(n, cs, o), x) <==> exists i :: 0 <= i < |cs| && cs[i].id == x && Evaluate(n, cs[i], o).Out?
  {
    var es := Entries(n, cs, o);
    if exists i :: 0 <= i < |cs| && cs[i].id == x && Evaluate(n, cs[i], o).Out? {
      var i :| 0 <= i < |cs| && cs[i].id == x && Evaluate(n, cs[i], o).Out?;
      assert es[i].id == x && es[i].v.Out?;
    }
  }

  lemma RankedSome(sort: Sorter, cs: seq<Scored>, r: Ranking)
    requires GoodSorter(sort)
    ensures |sort(cs, r)| == |cs| && forall s :: s in sort(cs, r) ==> s in cs
  {
    assert Sorts(sort, cs, r);
    assert |multiset(sort(cs, r))| == |multiset(cs)|;
    forall s | s in sort(cs, r) ensures s in cs {
      assert s in multiset(sort(cs, r));
    }
  }

  /** The answer names exactly those that were scored or ruled out. */
  lemma DecidedAll(es: seq<Entry>, objective: string, o: Options, sort: Sorter, x: string)
    requires GoodSorter(sort) && Decide(es, objective, o, sort).Answer?
    ensures
      var a := Decide(es, objective, o, sort);
      && Once(a.rejected)
      && (IsOut(es, x) || Named(ScoredOf(es), x) <==> a.chosen == Some(x) || HasId(a.rejected, x))
      && (a.chosen == Some(x) && HasId(a.rejected, x) ==> IsOut(es, x) && Named(ScoredOf(es), x))
  {
    var a := Decide(es, objective, o, sort);
    var (scored, rejected) := (ScoredOf(es), RejectedOf(es));
    RejectedAre(es, x);
    RankedSome(sort, scored, Ranking(objective, o.prior, o.pFloor, MaxLat(scored)));
    if a.chosen.Some? {
      RestRejected(rejected, scored, a.chosen.value, x);
      assert exists s :: s in scored && s.id == a.chosen.value;
    }
  }

  /**
   * Everyone is accounted for: with distinct ids, the chosen one and the rejected are exactly the candidates, the
   * chosen one is not rejected, and nobody is rejected twice.
   */
  lemma EveryoneAnswered(n: Needs, cs: seq<Candidate>, o: Options, sort: Sorter, x: string)
    requires DistinctIds(cs) && GoodSorter(sort) && Planned(n, cs, o, true, sort).Answer?
    ensures
      var a := Planned(n, cs, o, true, sort);
      && Once(a.rejected)
      && (IsCandidate(cs, x) <==> a.chosen == Some(x) || HasId(a.rejected, x))
      && !(a.chosen == Some(x) && HasId(a.rejected, x))
  {
    var es := Entries(n, cs, o);
    DecidedAll(es, ObjectiveFor(n), o, sort, x);
    NamedIs(n, cs, o, x);
    OutIs(n, cs, o, x);
    if IsCandidate(cs, x) {
      var i :| 0 <= i < |cs| && cs[i].id == x;
      assert es[i].id != "" && !es[i].v.Threw?;
    }
  }

  /** The chosen one passes every gate, has a rate, fits the ceiling and has a chance; its cost is the estimate. */
  lemma ChosenIsEligible(n: Needs, cs: seq<Candidate>, o: Options, sort: Sorter)
    requires Planned(n, cs, o, true, sort).Answer? && Planned(n, cs, o, true, sort).chosen.Some?
    ensures
      var a := Planned(n, cs, o, true, sort);
      exists i :: 0 <= i < |cs| && cs[i].id == a.chosen.value && Eligible(n, cs[i], o)
          && Expected(o.usage, o.rates[cs[i].id]) == Ok(a.estimate.value)
  {
    var a := Planned(n, cs, o, true, sort);
    var es := Entries(n, cs, o);
    var scored := ScoredOf(es);
    var r := Ranking(ObjectiveFor(n), o.prior, o.pFloor, MaxLat(scored));
    var s := Chosen(scored, Keep(sort(scored, r)[0], scored, r, o).id);
    ScoredAre(es, s);
    var i :| 0 <= i < |es| && es[i].id != "" && es[i].v == In(s);
    InIff(n, cs[i], o);
    InHasId(n, cs[i], o);
    assert cs[i].id == a.chosen.value && Eligible(n, cs[i], o);
  }

  /** Nothing is chosen exactly when nobody is eligible. */
  lemma NothingChosenIff(n: Needs, cs: seq<Candidate>, o: Options, sort: Sorter)
    requires GoodSorter(sort) && Planned(n, cs, o, true, sort).Answer?
    ensures Planned(n, cs, o, true, sort).chosen.None? <==> forall i :: 0 <= i < |cs| && cs[i].id != "" ==>
      !Eligible(n, cs[i], o)
  {
    var es := Entries(n, cs, o);
    var scored := ScoredOf(es);
    RankedSome(sort, scored, Ranking(ObjectiveFor(n), o.prior, o.pFloor, MaxLat(scored)));
    if scored != [] {
      ScoredAre(es, scored[0]);
      var i :| 0 <= i < |es| && es[i].id != "" && es[i].v == In(scored[0]);
      InIff(n, cs[i], o);
    } else {
      forall i | 0 <= i < |cs| && cs[i].id != "" ensures !Eligible(n, cs[i], o) {
        InIff(n, cs[i], o);
        if es[i].v.In? { ScoredAre(es, es[i].v.s); }
      }
    }
  }

  // -- Thin evidence ----------------------------------------------------------

  /** The same, or thin on both sides: as many samples, below the floor, and some positive probability. */
  ghost predicate AsGood(a: Evidence, b: Evidence, floor: real) {
    || a == b
    || (a.samples == b.samples < floor && a.source == b.source
        && a.p.Some? && a.p.value > 0.0 && b.p.Some? && b.p.value > 0.0)
  }

  ghost predicate SameButThin(a: Options, b: Options) {
    && a.(evidence := b.evidence) == b && a.evidence.Keys == b.evidence.Keys
    && forall id :: id in a.evidence ==> AsGood(a.evidence[id], b.evidence[id], a.sparseFloor)
  }

  /** Below the sample floor neither the measured probability nor its confidence changes anything in the answer. */
  lemma ThinEvidenceIsIgnored(n: Needs, cs: seq<Candidate>, a: Options, b: Options, enabled: bool, sort: Sorter)
    requires SameButThin(a, b)
    ensures Planned(n, cs, a, enabled, sort) == Planned(n, cs, b, enabled, sort)
  {
    forall i | 0 <= i < |cs| ensures Evaluate(n, cs[i], a) == Evaluate(n, cs[i], b) {
      SameQuality(cs[i].id, a, b);
    }
    assert Entries(n, cs, a) == Entries(n, cs, b);
    SameDecision(Entries(n, cs, a), ObjectiveFor(n), a, b, sort);
  }

  lemma SameQuality(id: string, a: Options, b: Options)
    requires SameButThin(a, b)
    ensures QualityOf(EvidenceOf(a, id), a.prior, a.sparseFloor) == QualityOf(EvidenceOf(b, id), b.prior, b.sparseFloor)
  {
    assert id in a.evidence <==> id in b.evidence;
    if id in a.evidence { assert AsGood(a.evidence[id], b.evidence[id], a.sparseFloor); }
  }

  /** A sparse candidate that competes always has a price at the prior. */
  lemma SparseHasPrice(n: Needs, c: Candidate, o: Options)
    requires Evaluate(n, c, o).In? && Evaluate(n, c, o).s.sparse
    ensures CostPerSuccess(Evaluate(n, c, o).s.expected, o.prior, o.pFloor).Some?
  {
    var s := Evaluate(n, c, o).s;
    NoCostIff(s.expected, s.p, o.pFloor);
    NoCostIff(s.expected, o.prior, o.pFloor);
  }

  /** Once the candidates are judged, the evidence is not looked at again. */
  lemma SameDecision(es: seq<Entry>, objective: string, a: Options, b: Options, sort: Sorter)
    requires a.(evidence := b.evidence) == b
    ensures Decide(es, objective, a, sort) == Decide(es, objective, b, sort)
  {
  }

  // -- The cheapest success ---------------------------------------------------

  /** All latencies known, or none. */
  ghost predicate Uniform(cs: seq<Scored>) {
    (forall i :: 0 <= i < |cs| ==> cs[i].latency.Some?) || (forall i :: 0 <= i < |cs| ==> cs[i].latency.None?)
  }

  ghost predicate OwnIds(cs: seq<Scored>) { forall i, j :: 0 <= i < j < |cs| ==> cs[i].id != cs[j].id }

  lemma LeadFlips(a: Scored, b: Scored, r: Ranking)
    ensures Lead(a, b, r) == -Lead(b, a, r)
    ensures CostOnly(r.objective) ==> Lead(a, b, r) == 0.0
  {
    var (x, y, g, h) := (LatencyGap(a, b, r), LatencyGap(b, a, r), QualityFor(a, r), QualityFor(b, r));
    assert x == -y;
    var w := WeightsOf(r.objective);
    assert w == AiWeights(0.7, 0.3, 0.0) ==> Lead(a, b, r) == 0.3 * x && Lead(b, a, r) == 0.3 * y;
    assert w == AiWeights(0.2, 0.8, 0.0) ==> Lead(a, b, r) == 0.8 * x && Lead(b, a, r) == 0.8 * y;
    assert w == AiWeights(0.2, 0.0, 0.8) ==> Lead(a, b, r) == -0.8 * (g - h) && Lead(b, a, r) == -0.8 * (h - g);
    assert w == AiWeights(1.0, 0.0, 0.0) ==> Lead(a, b, r) == 0.0 && Lead(b, a, r) == 0.0;
  }

  /** Between two costs the cheaper comes first unless the dearer leads by more than the tolerance. */
  lemma CheaperFirst(a: Scored, b: Scored, r: Ranking)
    requires CostOf(a, r) < CostOf(b, r)
    ensures Before(a, b, r) <==> Lead(a, b, r) <= 0.05
    ensures Before(b, a, r) <==> Lead(a, b, r) > 0.05
  {
    LeadFlips(a, b, r);
  }

  lemma LevelTotal(a: Scored, b: Scored)
    requires a.id != b.id
    ensures Level(a, b) <==> !Level(b, a)
  {
    NamesTotal(a.id, b.id);
    NamesOrdered(a.id, b.id, a.id);
    NamesOrdered(a.id, a.id, a.id);
  }

  lemma BeforeTotal(cs: seq<Scored>, r: Ranking, a: Scored, b: Scored)
    requires OwnIds(cs) && a in cs && b in cs
    ensures a == b ==> !Before(a, b, r)
    ensures a != b ==> (Before(a, b, r) <==> !Before(b, a, r))
  {
    var i :| 0 <= i < |cs| && cs[i] == a;
    var j :| 0 <= j < |cs| && cs[j] == b;
    if CostOf(a, r) < CostOf(b, r) {
      CheaperFirst(a, b, r);
    } else if CostOf(b, r) < CostOf(a, r) {
      CheaperFirst(b, a, r);
    } else if a == b {
      NamesOrdered(a.id, a.id, a.id);
    } else {
      LevelTotal(a, b);
    }
  }

  /**
   * One price, a slower candidate and a faster one of known latency, and by name one of unknown latency between them:
   * the names put the slower first, the latencies the faster.
   */
  ghost predicate Twisted(a: Scored, b: Scored, c: Scored, r: Ranking) {
    && CostOf(a, r) == CostOf(b, r) == CostOf(c, r)
    && a.latency.Some? && b.latency.None? && c.latency.Some? && a.latency.value > c.latency.value
    && NamesBefore(a.id, b.id) && NamesBefore(b.id, c.id)
  }

  ghost predicate NoTwist(cs: seq<Scored>, r: Ranking) {
    forall a, b, c :: a in cs && b in cs && c in cs ==> !Twisted(a, b, c, r)
  }

  /**
   * Three candidates, none dearer than the next, that the comparator puts in a circle: two steps up in cost stay within
   * the tolerance and the step over both does not, or the other way round; or two of one cost, level between them, with
   * a third that one of them leads and the other does not; or a twist.
   */
  ghost predicate Circular(a: Scored, b: Scored, c: Scored, r: Ranking) {
    var (x, y, z) := (CostOf(a, r), CostOf(b, r), CostOf(c, r));
    || (x < y < z && Lead(a, b, r) <= 0.05 && Lead(b, c, r) <= 0.05 && Lead(a, c, r) > 0.05)
    || (x < y < z && Lead(a, b, r) > 0.05 && Lead(b, c, r) > 0.05 && Lead(a, c, r) <= 0.05)
    || (x == y < z && Level(a, b) && Lead(b, c, r) <= 0.05 && Lead(a, c, r) > 0.05)
    || (x < y == z && Level(b, c) && Lead(a, b, r) <= 0.05 && Lead(a, c, r) > 0.05)
    || Twisted(a, b, c, r)
  }

  ghost predicate NoCircle(cs: seq<Scored>, r: Ranking) {
    forall a, b, c :: a in cs && b in cs && c in cs ==> !Circular(a, b, c, r)
  }

  ghost predicate Cycle(a: Scored, b: Scored, c: Scored, r: Ranking) {
    Before(a, b, r) && Before(b, c, r) && Before(c, a, r)
  }

  lemma CircularIsCycle(a: Scored, b: Scored, c: Scored, r: Ranking)
    requires Circular(a, b, c, r)
    ensures Cycle(a, b, c, r) || Cycle(a, c, b, r)
  {
    var (x, y, z) := (CostOf(a, r), CostOf(b, r), CostOf(c, r));
    if x < y { CheaperFirst(a, b, r); }
    if y < z { CheaperFirst(b, c, r); }
    if x < z { CheaperFirst(a, c, r); }
  }

  /** Candidates of one cost that go in a circle are twisted, from wherever the circle is entered. */
  lemma LevelCycle(a: Scored, b: Scored, c: Scored)
    requires Level(a, b) && Level(b, c) && Level(c, a)
    ensures
      || (a.latency.Some? && b.latency.None? && c.latency.Some? && a.latency.value > c.latency.value
          && NamesBefore(a.id, b.id) && NamesBefore(b.id, c.id))
      || (b.latency.Some? && c.latency.None? && a.latency.Some? && b.latency.value > a.latency.value
          && NamesBefore(b.id, c.id) && NamesBefore(c.id, a.id))
      || (c.latency.Some? && a.latency.None? && b.latency.Some? && c.latency.value > b.latency.value
          && NamesBefore(c.id, a.id) && NamesBefore(a.id, b.id))
  {
    NamesOrdered(a.id, b.id, c.id);
    NamesOrdered(b.id, c.id, a.id);
    NamesOrdered(c.id, a.id, b.id);
    NamesOrdered(a.id, c.id, a.id);
  }

  /** A circle, entered at its cheapest candidate. */
  lemma CycleIsCircular(a: Scored, b: Scored, c: Scored, r: Ranking)
    requires Cycle(a, b, c, r) && CostOf(a, r) <= CostOf(b, r) && CostOf(a, r) <= CostOf(c, r)
    ensures
      || Circular(a, b, c, r) || Circular(a, c, b, r) || Circular(b, c, a, r)
      || Circular(c, a, b, r) || Circular(b, a, c, r) || Circular(c, b, a, r)
  {
    var (x, y, z) := (CostOf(a, r), CostOf(b, r), CostOf(c, r));
    if x < y { CheaperFirst(a, b, r); }
    if x < z { CheaperFirst(a, c, r); }
    if y < z { CheaperFirst(b, c, r); }
    if z < y { CheaperFirst(c, b, r); }
    if x == y == z { LevelCycle(a, b, c); }
  }

  lemma NoCycle(cs: seq<Scored>, r: Ranking, a: Scored, b: Scored, c: Scored)
    requires NoCircle(cs, r) && a in cs && b in cs && c in cs
    ensures !Cycle(a, b, c, r)
  {
    if Cycle(a, b, c, r) {
      var (x, y, z) := (CostOf(a, r), CostOf(b, r), CostOf(c, r));
      if x <= y && x <= z {
        CycleIsCircular(a, b, c, r);
      } else if y <= x && y <= z {
        CycleIsCircular(b, c, a, r);
      } else {
        CycleIsCircular(c, a, b, r);
      }
    }
  }

  /** Under every objective the comparator is an order exactly when no three candidates go in a circle. */
  lemma AnyOrderIff(cs: seq<Scored>, r: Ranking)
    requires OwnIds(cs)
    ensures IsOrder(cs, r) <==> NoCircle(cs, r)
  {
    if NoCircle(cs, r) {
      forall a, b | a in cs && b in cs
        ensures (a == b || Before(a, b, r) || Before(b, a, r)) && !(Before(a, b, r) && Before(b, a, r))
      {
        BeforeTotal(cs, r, a, b);
      }
      forall a, b, c | a in cs && b in cs && c in cs && Before(a, b, r) && Before(b, c, r) ensures Before(a, c, r) {
        BeforeTotal(cs, r, a, b);
        BeforeTotal(cs, r, a, c);
        NoCycle(cs, r, a, b, c);
      }
    } else {
      var a, b, c :| a in cs && b in cs && c in cs && Circular(a, b, c, r);
      CircularIsCycle(a, b, c, r);
      BeforeTotal(cs, r, a, c);
      BeforeTotal(cs, r, a, b);
    }
  }

  /** For the cost-only objectives the only circle is a twist: nobody leads. */
  lemma OrderIff(cs: seq<Scored>, r: Ranking)
    requires CostOnly(r.objective) && OwnIds(cs)
    ensures IsOrder(cs, r) <==> NoTwist(cs, r)
  {
    AnyOrderIff(cs, r);
    forall a, b, c ensures Circular(a, b, c, r) <==> Twisted(a, b, c, r) {
      LeadFlips(a, b, r);
      LeadFlips(b, c, r);
      LeadFlips(a, c, r);
    }
  }

  /** Where all latencies are known, or none is, nothing is twisted. */
  lemma UniformIsOrder(cs: seq<Scored>, r: Ranking)
    requires CostOnly(r.objective) && Uniform(cs) && OwnIds(cs)
    ensures IsOrder(cs, r)
  {
    forall a, b, c | a in cs && b in cs && c in cs ensures !Twisted(a, b, c, r) {
      Uniformly(cs, a, b);
    }
    OrderIff(cs, r);
  }

  /** With mixed latencies a twist can be had for every price: three candidates that each come before the next. */
  lemma MixedLatenciesCycle(s: Scored, r: Ranking)
    ensures
      var (a, b, c) := (s.(id := "a", latency := Some(2.0)), s.(id := "b", latency := None),
          s.(id := "c", latency := Some(1.0)));
      Before(a, b, r) && Before(b, c, r) && Before(c, a, r) && Twisted(a, b, c, r)
  {
    var (a, b, c) := (s.(id := "a", latency := Some(2.0)), s.(id := "b", latency := None),
        s.(id := "c", latency := Some(1.0)));
    assert CostOf(a, r) == CostOf(b, r) == CostOf(c, r);
    assert NamesBefore("a", "b") && NamesBefore("b", "c");
  }

  // -- A circle under each weighted objective ---------------------------------

  /** How much faster each candidate of the slope is than the one before: within the tolerance once, not twice. */
  function SlopeStep(objective: string): real { if objective == "balanced" then 0.1 else 0.05 }

  function OnSlope(id: string, latency: real): Candidate {
    Candidate(id, "m", "", "", false, None, None, {}, None, None, false, Some(latency))
  }

  /** Three candidates, each a little dearer, a little faster and a little better than the one before. */
  function Slope(objective: string): seq<Candidate> {
    var g := SlopeStep(objective);
    [OnSlope("a", 1.0), OnSlope("b", 1.0 - g), OnSlope("c", 1.0 - 2.0 * g)]
  }

  function SlopeNeeds(objective: string): Needs { Needs(None, false, false, None, [], [], None, None, None,
      Some(objective)) }

  function FlatFee(nano: int): Rates { Rates(map[], map[], Big(nano)) }

  function Seen(p: real): Evidence { Evidence(Some(p), Some(1.0), 100.0, None) }

  /** Everything else as the code defaults it: a floor of 0.1, a prior of 0.9 and 20 samples. */
  const SLOPE_OPTIONS: Options := Options(
    Usage(map[], None), map["a" := FlatFee(10), "b" := FlatFee(12), "c" := FlatFee(15)],
    map["a" := Seen(0.5), "b" := Seen(0.55), "c" := Seen(0.6)], None, 0.15, 0.1, 0.9, 20.0)

  lemma FlatFeeIs(nano: int)
    ensures Expected(Usage(map[], None), FlatFee(nano)) == Ok(nano)
  {
    var (u, rate) := (Usage(map[], None), FlatFee(nano));
    assert CLASSES[..3][..2] == CLASSES[..2] && CLASSES[..2][..1] == CLASSES[..1] && CLASSES[..1][..0] == [];
    assert SumOf(u, rate, []) == Ok(0);
    assert SumOf(u, rate, CLASSES[..1]) == Ok(0);
    assert SumOf(u, rate, CLASSES[..2]) == Ok(0);
    assert SumOf(u, rate, CLASSES[..3]) == Ok(0);
  }

  lemma SeenIs(p: real)
    requires 0.0 < p <= 1.0
    ensures QualityOf(Some(Seen(p)), 0.9, 20.0) == Quality(p, 1.0, 100.0, false, "evidence")
  {
    TimesOne(p);
    TimesOne(0.9);
    assert Times(1.0, p) + Times(0.0, 0.9) == p;
  }

  /** What the loop makes of a candidate of the slope. */
  lemma SlopeScored(objective: string, id: string, latency: real, nano: int, p: real, cost: int)
    requires id in SLOPE_OPTIONS.rates && SLOPE_OPTIONS.rates[id] == FlatFee(nano)
    requires id in SLOPE_OPTIONS.evidence && SLOPE_OPTIONS.evidence[id] == Seen(p) && 0.0 < p <= 1.0
    requires CostPerSuccess(nano, p, 0.1) == Some(cost)
    ensures
      Evaluate(SlopeNeeds(objective), OnSlope(id, latency), SLOPE_OPTIONS)
      == In(Scored(id, "m", nano, p, 1.0, 100.0, false, "evidence", cost, Some(latency)))
  {
    FlatFeeIs(nano);
    SeenIs(p);
  }

  lemma SlopeCosts()
    ensures CostPerSuccess(10, 0.5, 0.1) == Some(20)
    ensures CostPerSuccess(12, 0.55, 0.1) == Some(22)
    ensures CostPerSuccess(15, 0.6, 0.1) == Some(25)
  {
    assert Scaled(0.5, 0.1) == 500000000 && Scaled(0.55, 0.1) == 550000000 && Scaled(0.6, 0.1) == 600000000;
  }

  function SlopeScores(objective: string): seq<Scored> {
    var g := SlopeStep(objective);
    [ Scored("a", "m", 10, 0.5, 1.0, 100.0, false, "evidence", 20, Some(1.0)),
      Scored("b", "m", 12, 0.55, 1.0, 100.0, false, "evidence", 22, Some(1.0 - g)),
      Scored("c", "m", 15, 0.6, 1.0, 100.0, false, "evidence", 25, Some(1.0 - 2.0 * g))]
  }

  lemma ScoredThree(es: seq<Entry>, a: Scored, b: Scored, c: Scored)
    requires es == [Entry(a.id, In(a)), Entry(b.id, In(b)), Entry(c.id, In(c))] && a.id != "" && b.id != ""
    requires c.id != ""
    ensures ScoredOf(es) == [a, b, c] && !Throws(es)
  {
    assert es[..2] == [es[0], es[1]] && es[..2][..1] == [es[0]] && [es[0]][..0] == [];
    assert ScoredOf([es[0]]) == [a];
    assert ScoredOf(es[..2]) == [a, b];
  }

  lemma SlopeIsScored(objective: string)
    ensures
      var es := Entries(SlopeNeeds(objective), Slope(objective), SLOPE_OPTIONS);
      ScoredOf(es) == SlopeScores(objective) && !Throws(es)
  {
    var (g, ss) := (SlopeStep(objective), SlopeScores(objective));
    var es := Entries(SlopeNeeds(objective), Slope(objective), SLOPE_OPTIONS);
    SlopeCosts();
    SlopeScored(objective, "a", 1.0, 10, 0.5, 20);
    SlopeScored(objective, "b", 1.0 - g, 12, 0.55, 22);
    SlopeScored(objective, "c", 1.0 - 2.0 * g, 15, 0.6, 25);
    assert es == [Entry("a", In(ss[0])), Entry("b", In(ss[1])), Entry("c", In(ss[2]))];
    ScoredThree(es, ss[0], ss[1], ss[2]);
  }

  lemma {:induction false} MaxLatAtMost(cs: seq<Scored>, m: real)
    requires m >= 0.0 && forall i :: 0 <= i < |cs| ==> cs[i].latency.GetOr(0.0) <= m
    ensures MaxLat(cs) <= m
  {
    if cs != [] { MaxLatAtMost(cs[1..], m); }
  }

  lemma SlopeCycle(r: Ranking)
    requires !CostOnly(r.objective) && r.maxLat == 1.0
    ensures var cs := SlopeScores(r.objective); Cycle(cs[0], cs[1], cs[2], r) && Circular(cs[0], cs[1], cs[2], r)
  {
    var cs := SlopeScores(r.objective);
    CheaperFirst(cs[0], cs[1], r);
    CheaperFirst(cs[1], cs[2], r);
    CheaperFirst(cs[0], cs[2], r);
  }

  /**
   * Under each weighted objective three candidates that pass every gate, all of known latency and ample evidence, come
   * before one another in a circle.
   */
  lemma WeightedObjectivesCycle(objective: string)
    requires !CostOnly(objective)
    ensures
      var scored := ScoredOf(Entries(SlopeNeeds(objective), Slope(objective), SLOPE_OPTIONS));
      var r := Ranking(objective, SLOPE_OPTIONS.prior, SLOPE_OPTIONS.pFloor, MaxLat(scored));
      |scored| == 3 && Cycle(scored[0], scored[1], scored[2], r) && !IsOrder(scored, r)
  {
    SlopeIsScored(objective);
    var cs := SlopeScores(objective);
    MaxLatAtMost(cs[1..], 1.0);
    assert MaxLat(cs) == 1.0;
    var r := Ranking(objective, 0.9, 0.1, 1.0);
    SlopeCycle(r);
    assert cs[0] in cs && cs[1] in cs && cs[2] in cs;
    AnyOrderIff(cs, r);
  }

  // -- The head of the ranking ------------------------------------------------

  /** Where no three candidates go in a circle the head of the ranking comes before every other, under any objective. */
  lemma HeadIsFirst(scored: seq<Scored>, r: Ranking, sort: Sorter)
    requires GoodSorter(sort) && OwnIds(scored) && NoCircle(scored, r) && scored != []
    ensures sort(scored, r) != [] && sort(scored, r)[0] in scored
    ensures forall s :: s in scored && s != sort(scored, r)[0] ==> Before(sort(scored, r)[0], s, r)
  {
    var ranked := sort(scored, r);
    AnyOrderIff(scored, r);
    RankedSome(sort, scored, r);
    assert ranked[0] in ranked;
    forall s | s in scored && s != ranked[0] ensures Before(ranked[0], s, r) {
      RankedHas(sort, scored, r, s);
      var k :| 0 <= k < |ranked| && ranked[k] == s;
      assert Sorts(sort, scored, r);
      assert !Before(ranked[k], ranked[0], r);
      BeforeTotal(scored, r, s, ranked[0]);
    }
  }

  /**
   * Under any objective, where no three candidates go in a circle: without a current deployment the candidate that
   * comes before every other is chosen, and otherwise either that one or the current one.
   */
  lemma FirstWins(es: seq<Entry>, objective: string, o: Options, sort: Sorter)
    requires GoodSorter(sort) && OwnIds(ScoredOf(es))
    requires NoCircle(ScoredOf(es), Ranking(objective, o.prior, o.pFloor, MaxLat(ScoredOf(es))))
    requires Decide(es, objective, o, sort).Answer? && Decide(es, objective, o, sort).chosen.Some?
    ensures
      var scored := ScoredOf(es);
      var r := Ranking(objective, o.prior, o.pFloor, MaxLat(scored));
      var best := sort(scored, r)[0];
      && best in scored && (forall s :: s in scored && s != best ==> Before(best, s, r))
      && (Decide(es, objective, o, sort).chosen == Some(best.id) || Decide(es, objective, o, sort).chosen == o.current)
      && (!Given(o.current) ==> Decide(es, objective, o, sort).chosen == Some(best.id))
      && (forall s :: s in scored && Given(o.current) && s.id == o.current.value && s.id != best.id ==>
        (Decide(es, objective, o, sort).chosen == o.current <==> GainOf(CostOf(s, r), CostOf(best, r)) < o.minGain))
  {
    var scored := ScoredOf(es);
    var r := Ranking(objective, o.prior, o.pFloor, MaxLat(scored));
    HeadIsFirst(scored, r, sort);
    var best := sort(scored, r)[0];
    var i :| 0 <= i < |scored| && scored[i] == best;
    assert FindScored(scored, best.id) == i;
    if Given(o.current) && FindScored(scored, o.current.value) < |scored| {
      var j := FindScored(scored, o.current.value);
      assert forall k :: 0 <= k < |scored| && scored[k].id == o.current.value ==> k == j;
    }
  }

  /**
   * For the cost-only objectives, where no three candidates are twisted, none has a lower cost per success than the
   * best of the ranking; without a current deployment that one is chosen, and otherwise the current one is kept exactly
   * when the gain is below minGain.
   */
  lemma CheapestWins(es: seq<Entry>, objective: string, o: Options, sort: Sorter)
    requires GoodSorter(sort) && CostOnly(objective) && OwnIds(ScoredOf(es))
    requires NoTwist(ScoredOf(es), Ranking(objective, o.prior, o.pFloor, MaxLat(ScoredOf(es))))
    requires Decide(es, objective, o, sort).Answer? && Decide(es, objective, o, sort).chosen.Some?
    ensures
      var scored := ScoredOf(es);
      var r := Ranking(objective, o.prior, o.pFloor, MaxLat(scored));
      var best := sort(scored, r)[0];
      && best in scored && (forall s :: s in scored ==> CostOf(best, r) <= CostOf(s, r))
      && (Decide(es, objective, o, sort).chosen == Some(best.id) || Decide(es, objective, o, sort).chosen == o.current)
      && (!Given(o.current) ==> Decide(es, objective, o, sort).chosen == Some(best.id))
      && (forall s :: s in scored && Given(o.current) && s.id == o.current.value && s.id != best.id ==>
        (Decide(es, objective, o, sort).chosen == o.current <==> GainOf(CostOf(s, r), CostOf(best, r)) < o.minGain))
  {
    var scored := ScoredOf(es);
    var r := Ranking(objective, o.prior, o.pFloor, MaxLat(scored));
    OrderIff(scored, r);
    AnyOrderIff(scored, r);
    FirstWins(es, objective, o, sort);
    var best := sort(scored, r)[0];
    forall s | s in scored ensures CostOf(best, r) <= CostOf(s, r) {
      if CostOf(s, r) < CostOf(best, r) { CheaperFirst(s, best, r); LeadFlips(s, best, r); }
    }
  }

  lemma Uniformly(cs: seq<Scored>, a: Scored, b: Scored)
    requires Uniform(cs) && a in cs && b in cs
    ensures a.latency.Some? == b.latency.Some?
  {
    var i :| 0 <= i < |cs| && cs[i] == a;
    var j :| 0 <= j < |cs| && cs[j] == b;
  }

  lemma RankedHas(sort: Sorter, cs: seq<Scored>, r: Ranking, s: Scored)
    requires GoodSorter(sort) && s in cs
    ensures s in sort(cs, r)
  {
    assert Sorts(sort, cs, r);
    assert s in multiset(cs);
    assert s in multiset(sort(cs, r));
  }
}
