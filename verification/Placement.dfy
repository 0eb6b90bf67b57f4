/**
 * place (src/placement.js): the planner behind a person's rules, their machines and a quality bar. Whatever it selects
 * keeps every rule; everybody is accounted for; a person's machine is named only for that person.
 */
module Placement {
  import opened Prelude
  import opened Planner
  import opened S = Sieve
  import L = Learning

  datatype Rules = Rules(
    noCloud: bool, onlyFree: bool, region: Option<string>, maxCostUsd: Option<real>, prefer: Option<string>,
    uncensored: bool)

  /** One call of place: the requirements, the offers and the context. */
  datatype Call = Call(
    req: Requirements, offers: seq<Offer>, person: Option<string>, rules: Rules, kind: string, floor: Option<real>,
    exclude: map<string, Why>, priors: map<string, real>, outcomes: seq<L.Row>, now: Option<int>, planning: Context,
    decay: L.Decay)

  /** What place and escalate answer; an answer that asks the person carries no floor and no rejections. */
  datatype Answer = Answer(
    selected: Option<string>, ranked: seq<Standing>, rejected: seq<Rejection>, fallback: Option<Fallback>,
    floor: Option<real>,
    escalations: nat, outcomes: seq<L.Row>)

  // -- Rules ------------------------------------------------------------------

  predicate OwnedBy(o: Offer, person: Option<string>) {
    o.trust == "user-owned" && Given(person) && o.owner == person
  }

  function ApplyRules(req: Requirements, rules: Rules): Requirements {
    var a := if rules.noCloud then req.(trust := ["user-owned"]) else req;
    var b := if rules.onlyFree then a.(maxCost := Some(0.0)) else a;
    var c := if Given(rules.region) then b.(residency := rules.region) else b;
    var d := if rules.maxCostUsd.None? then c
             else if c.maxCost.None? then c.(maxCost := rules.maxCostUsd)
             else c.(maxCost := Some(RealMin(c.maxCost.value, rules.maxCostUsd.value)));
    if Given(rules.prefer) && !Given(d.objective) then
      d.(objective := if rules.prefer == Some("fastest") then Some("lowest-latency") else rules.prefer)
    else d
  }

  function RuleExcluded(o: Offer, rules: Rules, person: Option<string>, exclude: map<string, Why>): Option<Why> {
    if o.id in exclude then Some(exclude[o.id])
    else if o.trust == "user-owned" && !Given(person) then Some(NeedsOwner)
    else if o.trust == "user-owned" && !Given(o.owner) then Some(HasNoOwner)
    else if o.trust == "user-owned" && o.owner != person then Some(AnotherPerson)
    else if rules.noCloud && !OwnedBy(o, person) then Some(NoCloud)
    else if !rules.uncensored && "model:uncensored" in o.capabilities then Some(Uncensored)
    else None
  }

  predicate NeedsMuch(req: Requirements) { req.gpu || req.cpu >= 2.0 }

  function Req(c: Call): Requirements { ApplyRules(c.req, c.rules) }

  /** Why an offer does not even reach the bar. */
  function Screened(c: Call, o: Offer): Option<Why> {
    var why := RuleExcluded(o, c.rules, c.person, c.exclude);
    if why.Some? then why else if NeedsMuch(Req(c)) && o.streaming then Some(Streaming) else None
  }

  function OptionKey(o: Offer): string {
    if Given(o.tag) then o.id + "@" + o.tag.value else o.id
  }

  function PriorOf(c: Call, key: string): Option<real> { if key in c.priors then Some(c.priors[key]) else None }

  function SuccessAt(c: Call, o: Offer): real {
    L.Estimate(c.outcomes, c.person, OptionKey(o), Some(c.kind), PriorOf(c, OptionKey(o)), c.now, c.decay)
  }

  const DEFAULT_FLOOR := 0.5

  function Floor(c: Call): real { c.floor.GetOr(DEFAULT_FLOOR) }

  function Chance(c: Call): Offer -> real { (o: Offer) => SuccessAt(c, o) }

  function Screener(c: Call): Offer -> Option<Why> { (o: Offer) => Screened(c, o) }

  /** The chance of each option above the bar, by id. */
  function Chances(above: seq<Offer>, chance: Offer -> real): map<string, real>
    decreases |above|
  {
    if above == [] then map[]
    else
      var o := above[|above| - 1];
      Chances(above[..|above| - 1], chance)[o.id := chance(o)]
  }

  function AboveBar(c: Call): seq<Offer> {
    Filter(Filter(c.offers, Unscreened(Screener(c))), Meets(Chance(c), Floor(c)))
  }

  function Planning(c: Call): Context { c.planning.(success := Chances(AboveBar(c), Chance(c))) }

  function Judging(req: Requirements, ctx: Context): Offer -> Verdict { (o: Offer) => Judge(req, o, ctx) }

  function SieveOf(c: Call): Sieve {
    Sieve.Sift(c.offers, Screener(c), Chance(c), Floor(c), Judging(Tighten(Req(c)), Planning(c)))
  }

  // -- The order of the ranked list -------------------------------------------

  /** What plan scored, in the order of the offers. */
  function Lines(c: Call): seq<Scored> {
    var req := Tighten(Req(c));
    ScoreAll(Competing(req, AboveBar(c), Planning(c)), ObjectiveOf(req), Planning(c).weights, Planning(c).success)
  }

  /** The line of an id: the last, as a Map built from a list keeps it. */
  function LineOf(lines: seq<Scored>, id: string): Option<Scored>
    ensures LineOf(lines, id).Some? ==> LineOf(lines, id).value in lines && LineOf(lines, id).value.id == id
    ensures LineOf(lines, id).None? ==> forall i :: 0 <= i < |lines| ==> lines[i].id != id
    decreases |lines|
  {
    var n := |lines|;
    if n == 0 then None else if lines[n - 1].id == id then Some(lines[n - 1]) else LineOf(lines[..n - 1], id)
  }

  /** The comparator of the ranked list: score, then latency, then name; what has no score counts as Infinity. */
  predicate Precedes(a: Standing, b: Standing, lines: seq<Scored>) {
    var (x, y) := (LineOf(lines, a.id), LineOf(lines, b.id));
    if x.Some? && (y.None? || Ahead(x.value, y.value)) then true
    else if y.Some? && (x.None? || Ahead(y.value, x.value)) then false
    else NamesBefore(a.id, b.id)
  }

  lemma PrecedesIsOrder(a: Standing, b: Standing, d: Standing, lines: seq<Scored>)
    ensures !(Precedes(a, b, lines) && Precedes(b, a, lines))
    ensures !Precedes(b, a, lines) && !Precedes(d, b, lines) ==> !Precedes(d, a, lines)
  {
    NamesOrdered(a.id, b.id, a.id);
    NamesOrdered(a.id, a.id, a.id);
    NamesOrdered(d.id, a.id, b.id);
    NamesTotal(a.id, b.id);
    NamesTotal(b.id, d.id);
  }

  ghost predicate InOrder(ranked: seq<Standing>, lines: seq<Scored>) {
    forall i, j :: 0 <= i < j < |ranked| ==> !Precedes(ranked[j], ranked[i], lines)
  }

  function SlotIn(e: Standing, sorted: seq<Standing>, lines: seq<Scored>): seq<Standing>
    decreases |sorted|
  {
    if sorted == [] then [e]
    else if Precedes(e, sorted[0], lines) then [e] + sorted else [sorted[0]] + SlotIn(e, sorted[1..], lines)
  }

  function Sorted(ranked: seq<Standing>, lines: seq<Scored>): seq<Standing>
    decreases |ranked|
  {
    if ranked == [] then [] else SlotIn(ranked[|ranked| - 1], Sorted(ranked[..|ranked| - 1], lines), lines)
  }

  lemma {:induction false} SlotInMembers(e: Standing, sorted: seq<Standing>, lines: seq<Scored>)
    ensures multiset(SlotIn(e, sorted, lines)) == multiset(sorted) + multiset{e}
    decreases |sorted|
  {
    if sorted != [] {
      assert sorted == [sorted[0]] + sorted[1..];
      if !Precedes(e, sorted[0], lines) { SlotInMembers(e, sorted[1..], lines); }
    }
  }

  lemma {:induction false} SlotInKeeps(e: Standing, sorted: seq<Standing>, lines: seq<Scored>)
    requires InOrder(sorted, lines)
    ensures InOrder(SlotIn(e, sorted, lines), lines)
    decreases |sorted|
  {
    if sorted == [] {
    } else if Precedes(e, sorted[0], lines) {
      forall j | 0 <= j < |sorted| ensures !Precedes(sorted[j], e, lines) {
        PrecedesIsOrder(e, sorted[0], sorted[j], lines);
      }
    } else {
      var (rest, t) := (sorted[1..], SlotIn(e, sorted[1..], lines));
      SlotInKeeps(e, rest, lines);
      SlotInMembers(e, rest, lines);
      forall j | 0 <= j < |t| ensures !Precedes(t[j], sorted[0], lines) {
        assert t[j] in multiset(rest) + multiset{e};
        if t[j] != e {
          var k :| 0 <= k < |rest| && rest[k] == t[j];
          assert sorted[k + 1] == t[j];
        }
      }
    }
  }

  lemma {:induction false} SortedIs(ranked: seq<Standing>, lines: seq<Scored>)
    ensures InOrder(Sorted(ranked, lines), lines) && multiset(Sorted(ranked, lines)) == multiset(ranked)
    decreases |ranked|
  {
    if ranked != [] {
      var (front, e) := (ranked[..|ranked| - 1], ranked[|ranked| - 1]);
      assert ranked == front + [e];
      SortedIs(front, lines);
      SlotInKeeps(e, Sorted(front, lines), lines);
      SlotInMembers(e, Sorted(front, lines), lines);
    }
  }

  ghost predicate Placed(a: Answer, c: Call) {
    && a.selected == Planned(Req(c), AboveBar(c), Planning(c)).selected
    && Sifted(a.rejected, a.ranked, a.fallback, SieveOf(c)) && InOrder(a.ranked, Lines(c))
    && a.floor == Some(Floor(c)) && a.outcomes == c.outcomes
  }

  method Place(c: Call, escalations: nat) returns (a: Answer)
    ensures Placed(a, c) && a.escalations == escalations
  {
    var rejected, ranked, fallback, above := SiftAll(SieveOf(c));
    var r := Plan(Req(c), above, Planning(c));
    ghost var found := ranked;
    ranked := Sorted(ranked, Lines(c));
    SortedIs(found, Lines(c));
    SiftedInAnyOrder(rejected, found, ranked, fallback, SieveOf(c));
    a := Answer(r.selected, ranked, rejected, fallback, Some(Floor(c)), escalations, c.outcomes);
  }

  /**
   * Of two ranked options the one that plan puts ahead comes first, and of two it puts ahead of neither the first by
   * name; and each is one of plan's candidates.
   */
  lemma RankedFollowsPlan(a: Answer, c: Call, i: nat, j: nat)
    requires Placed(a, c) && i < |a.ranked| && j < |a.ranked| && i != j
    ensures
      var (x, y) := (LineOf(Lines(c), a.ranked[i].id), LineOf(Lines(c), a.ranked[j].id));
      && x.Some? && y.Some? && x.value in Planned(Req(c), AboveBar(c), Planning(c)).ranked
      && (Ahead(x.value, y.value) ==> i < j)
      && (!Ahead(x.value, y.value) && !Ahead(y.value, x.value) && NamesBefore(a.ranked[i].id, a.ranked[j].id) ==> i < j)
  {
    HasLine(a, c, i);
    HasLine(a, c, j);
    var x := LineOf(Lines(c), a.ranked[i].id).value;
    RankSorts(Lines(c));
    assert x in multiset(Lines(c));
    assert x in multiset(Rank(Lines(c)));
  }

  lemma HasLine(a: Answer, c: Call, i: nat)
    requires Placed(a, c) && i < |a.ranked|
    ensures LineOf(Lines(c), a.ranked[i].id).Some?
  {
    var k := RankedIsOpen(a, c, i);
    var cs := Competing(Tighten(Req(c)), AboveBar(c), Planning(c));
    var m := OpenCompetes(Tighten(Req(c)), AboveBar(c), Planning(c), k);
    SameIds(cs, Lines(c), m);
  }

  lemma SameIds(cs: seq<Scored>, lines: seq<Scored>, m: nat)
    requires m < |cs| == |lines| && lines[m].id == cs[m].id
    ensures LineOf(lines, cs[m].id).Some?
  {
  }

  /** A ranked option has a verdict that lets it compete. */
  lemma RankedIsOpen(a: Answer, c: Call, i: nat) returns (k: nat)
    requires Placed(a, c) && i < |a.ranked|
    ensures k < |AboveBar(c)| && AboveBar(c)[k].id == a.ranked[i].id
    ensures Judge(Tighten(Req(c)), AboveBar(c)[k], Planning(c)).Open?
  {
    var (s, e) := (SieveOf(c), a.ranked[i]);
    assert Stands(e, s);
    k :| 0 <= k < |Above(s)| && Above(s)[k].id == e.id && Judged(Above(s), s.judge)[k] == VerdictOf(s, e.id).value;
    assert s.judge(Above(s)[k]) == Judge(Tighten(Req(c)), Above(s)[k], Planning(c));
  }

  lemma OpenCompetes(req: Requirements, offers: seq<Offer>, ctx: Context, k: nat) returns (m: nat)
    requires k < |offers| && Judge(req, offers[k], ctx).Open?
    ensures m < |Competing(req, offers, ctx)| && Competing(req, offers, ctx)[m].id == offers[k].id
  {
    OpenIff(req, offers[k], ctx);
    CompetingHas(req, offers, ctx, k);
    var c := Scored(offers[k].id, EstimateCost(req, offers[k], ctx).value, LatencyOf(offers[k], req.latencyOp), 0.0);
    m :| 0 <= m < |Competing(req, offers, ctx)| && Competing(req, offers, ctx)[m] == c;
  }

  // -- What a placement promises ----------------------------------------------

  /**
   * No rule keeps an offer out exactly when it is on no exclusion list, is the person's own machine if it is anybody's
   * or if nothing may go to the cloud, is uncensored only if that is allowed, and is not streaming when the work needs
   * a GPU or two cores.
   */
  ghost predicate BreaksNoRule(c: Call, o: Offer) {
    && o.id !in c.exclude
    && (o.trust == "user-owned" || c.rules.noCloud ==>
      o.trust == "user-owned" && Given(c.person) && o.owner == c.person)
    && ("model:uncensored" in o.capabilities ==> c.rules.uncensored)
    && (o.streaming ==> !c.req.gpu && c.req.cpu < 2.0)
  }

  lemma ScreenedIff(c: Call, o: Offer)
    ensures Screened(c, o).None? <==> BreaksNoRule(c, o)
  {
  }

  ghost function Lower(a: Option<real>, b: Option<real>): Option<real> {
    if a.None? then b else if b.None? then a else if a.value <= b.value then a else b
  }

  /** The requirements once the rules are applied: nothing else about the work changes. */
  ghost function Wanted(c: Call): Requirements {
    var preferred := if c.rules.prefer == Some("fastest") then Some("lowest-latency") else c.rules.prefer;
    var objective := if Given(c.req.objective) || !Given(c.rules.prefer) then c.req.objective else preferred;
    var kept := objective == Some("private") || objective == Some("first-party-only");
    c.req.(objective := objective,
           residency := if Given(c.rules.region) then c.rules.region else c.req.residency,
           maxCost := Lower(if c.rules.onlyFree then Some(0.0) else c.req.maxCost, c.rules.maxCostUsd),
           trust := if c.rules.noCloud then ["user-owned"]
                    else if c.req.trust == [] && kept then ["first-party"] else c.req.trust)
  }

  lemma WantedIs(c: Call)
    ensures Tighten(Req(c)) == Wanted(c)
  {
    var (r, w) := (Req(c), Wanted(c));
    RulesAre(c.req, c.rules);
    assert Tighten(r).trust == w.trust;
  }

  lemma RulesAre(req: Requirements, rules: Rules)
    ensures
      var r := ApplyRules(req, rules);
      && r.trust == (if rules.noCloud then ["user-owned"] else req.trust)
      && r.maxCost == Lower(if rules.onlyFree then Some(0.0) else req.maxCost, rules.maxCostUsd)
      && r.residency == (if Given(rules.region) then rules.region else req.residency)
      && r == req.(trust := r.trust, maxCost := r.maxCost, residency := r.residency, objective := r.objective)
  {
  }

  /** The chance that the step succeeds at an offer, learned under the offer's id, and its tag if it has one. */
  ghost function SuccessOf(c: Call, o: Offer): real {
    var key := if o.tag.Some? && o.tag.value != "" then o.id + "@" + o.tag.value else o.id;
    L.Estimate(c.outcomes, c.person, key, Some(c.kind), if key in c.priors then Some(c.priors[key]) else None, c.now,
               c.decay)
  }

  /** It is at least the bar, one half unless the call says otherwise. */
  ghost predicate MeetsBar(c: Call, o: Offer) { SuccessOf(c, o) >= if c.floor.Some? then c.floor.value else 0.5 }

  /** An offer that may run the work: no rule keeps it out, it meets the bar and every hard constraint. */
  ghost predicate MayRun(c: Call, o: Offer) {
    BreaksNoRule(c, o) && MeetsBar(c, o) && Selectable(Wanted(c), o, Planning(c))
  }

  /** The same with the chance of success spelled out, for offers of distinct ids. */
  ghost predicate Qualifies(c: Call, o: Offer) {
    var cost := EstimateCost(Wanted(c), o, c.planning);
    && BreaksNoRule(c, o) && MeetsBar(c, o) && SuccessOf(c, o) > 0.0
    && Passes(Wanted(c), o) && cost.Some?
    && (Wanted(c).maxCost.Some? ==> cost.value <= Wanted(c).maxCost.value)
  }

  lemma {:induction false} ChancesAre(above: seq<Offer>, chance: Offer -> real)
    ensures forall o :: o in above ==> o.id in Chances(above, chance)
    ensures forall id :: id in Chances(above, chance) ==> ChanceFrom(above, chance, id)
    decreases |above|
  {
    if above != [] {
      var (front, last) := (above[..|above| - 1], above[|above| - 1]);
      ChancesAre(front, chance);
      assert above == front + [last];
      forall id | id in Chances(above, chance) ensures ChanceFrom(above, chance, id) {
        if id == last.id {
          assert last in above;
        } else {
          assert ChanceFrom(front, chance, id);
        }
      }
    }
  }

  ghost predicate ChanceFrom(above: seq<Offer>, chance: Offer -> real, id: string)
    requires id in Chances(above, chance)
  {
    exists o :: o in above && o.id == id && Chances(above, chance)[id] == chance(o)
  }

  /** With distinct ids plan is told of each option's own chance. */
  lemma ChanceIs(c: Call, o: Offer)
    requires DistinctIds(c.offers) && o in AboveBar(c)
    ensures o.id in Chances(AboveBar(c), Chance(c)) && Chances(AboveBar(c), Chance(c))[o.id] == SuccessOf(c, o)
  {
    var (above, chance) := (AboveBar(c), Chance(c));
    ChancesAre(above, chance);
    assert ChanceFrom(above, chance, o.id);
    var p :| p in above && p.id == o.id && Chances(above, chance)[o.id] == chance(p);
    AboveIs(SieveOf(c), p);
    AboveIs(SieveOf(c), o);
    SameOffer(c.offers, o, p);
  }

  lemma SameCost(req: Requirements, o: Offer, ctx: Context, success: map<string, real>)
    ensures EstimateCost(req, o, ctx.(success := success)) == EstimateCost(req, o, ctx)
  {
  }

  lemma AboveBarIs(c: Call, o: Offer)
    ensures o in AboveBar(c) <==> o in c.offers && BreaksNoRule(c, o) && MeetsBar(c, o)
  {
    AboveIs(SieveOf(c), o);
    ScreenedIff(c, o);
  }

  lemma MayRunIff(c: Call, o: Offer)
    requires DistinctIds(c.offers) && o in c.offers
    ensures MayRun(c, o) <==> Qualifies(c, o)
  {
    AboveBarIs(c, o);
    if BreaksNoRule(c, o) && MeetsBar(c, o) {
      ChanceIs(c, o);
      SameCost(Wanted(c), o, c.planning, Chances(AboveBar(c), Chance(c)));
    }
  }

  lemma AboveMayRun(c: Call, o: Offer)
    requires o in AboveBar(c) && Selectable(Tighten(Req(c)), o, Planning(c))
    ensures o in c.offers && MayRun(c, o)
  {
    AboveBarIs(c, o);
    WantedIs(c);
  }

  /** What is selected may run the work. */
  lemma SelectedMayRun(a: Answer, c: Call)
    requires Placed(a, c) && a.selected.Some?
    ensures exists o :: o in c.offers && o.id == a.selected.value && MayRun(c, o)
  {
    SelectionIsSafe(Req(c), AboveBar(c), Planning(c));
    var i :| 0 <= i < |AboveBar(c)| && AboveBar(c)[i].id == a.selected.value
             && Selectable(Tighten(Req(c)), AboveBar(c)[i], Planning(c));
    AboveMayRun(c, AboveBar(c)[i]);
  }

  /** An id is mentioned when it is selected, ranked or named as the fallback. */
  ghost predicate Mentioned(a: Answer, id: string) {
    || a.selected == Some(id)
    || (exists i :: 0 <= i < |a.ranked| && a.ranked[i].id == id)
    || (a.fallback.Some? && a.fallback.value.id == id)
  }

  lemma SelectedIsScreened(a: Answer, c: Call)
    requires Placed(a, c) && a.selected.Some?
    ensures exists o :: o in c.offers && o.id == a.selected.value && Screened(c, o).None?
  {
    SelectedMayRun(a, c);
    var o :| o in c.offers && o.id == a.selected.value && MayRun(c, o);
    ScreenedIff(c, o);
  }

  /** Whatever is mentioned passed the rules, and so was not on the exclusion list. */
  lemma MentionedPassRules(a: Answer, c: Call, id: string)
    requires Placed(a, c) && Mentioned(a, id)
    ensures exists o :: o in c.offers && o.id == id && Screened(c, o).None?
  {
    var s := SieveOf(c);
    if a.selected == Some(id) {
      SelectedIsScreened(a, c);
    } else if exists i :: 0 <= i < |a.ranked| && a.ranked[i].id == id {
      var i :| 0 <= i < |a.ranked| && a.ranked[i].id == id;
      assert Stands(a.ranked[i], s);
      var k :| 0 <= k < |Above(s)| && IsStanding(a.ranked[i], s, Above(s)[k]);
      AboveIs(s, Above(s)[k]);
    } else {
      var below := Survivors(s);
      assert BestOf(a.fallback, s.chance, below);
      var i :| 0 <= i < |below| && AsFallback(below[i], s.chance) == a.fallback.value;
      AboveIs(s, below[i]);
    }
  }

  /** A user-owned machine is selected, ranked or named as the fallback only when the person owns it. */
  lemma OwnMachinesOnly(a: Answer, c: Call, o: Offer)
    requires Placed(a, c) && DistinctIds(c.offers) && o in c.offers && Mentioned(a, o.id) && o.trust == "user-owned"
    ensures Given(c.person) && o.owner == c.person
  {
    MentionedPassRules(a, c, o.id);
    var p :| p in c.offers && p.id == o.id && Screened(c, p).None?;
    SameOffer(c.offers, o, p);
    ScreenedIff(c, o);
  }

  /** Every rule of the person holds of what is selected. */
  lemma RulesHold(a: Answer, c: Call)
    requires Placed(a, c) && a.selected.Some?
    ensures exists o :: o in c.offers && o.id == a.selected.value && KeepsRules(o, c) && MeetsBar(c, o)
  {
    SelectedMayRun(a, c);
    var o :| o in c.offers && o.id == a.selected.value && MayRun(c, o);
    MayRunKeepsRules(o, c);
  }

  lemma MayRunKeepsRules(o: Offer, c: Call)
    requires MayRun(c, o)
    ensures KeepsRules(o, c)
  {
    SameCost(Wanted(c), o, c.planning, Chances(AboveBar(c), Chance(c)));
    var w := Wanted(c);
    assert Passes(w, o);
    assert Given(c.rules.region) ==> w.residency == c.rules.region;
  }

  ghost predicate KeepsRules(o: Offer, c: Call) {
    var cost := EstimateCost(Wanted(c), o, c.planning);
    && BreaksNoRule(c, o) && cost.Some?
    && (c.rules.onlyFree ==> cost.value <= 0.0)
    && (c.rules.maxCostUsd.Some? ==> cost.value <= c.rules.maxCostUsd.value)
    && (c.req.maxCost.Some? && (c.req.maxCost.value >= 0.0 || !c.rules.onlyFree) ==> cost.value <= c.req.maxCost.value)
    && (Given(c.rules.region) ==> o.region == c.rules.region || c.rules.region.value in o.regions)
  }

  /**
   * Nobody is unaccounted for: an offer is ranked exactly when it may run the work, and rejected exactly when some
   * rule, the bar or a hard constraint keeps it out; the one other case is an option whose price nobody knows.
   */
  lemma EveryOfferAccounted(a: Answer, c: Call, o: Offer)
    requires Placed(a, c) && DistinctIds(c.offers) && o in c.offers
    ensures (exists k :: 0 <= k < |a.ranked| && a.ranked[k].id == o.id) <==> Qualifies(c, o)
    ensures !Qualifies(c, o) && !HasId(a.rejected, o.id) ==>
      Passes(Wanted(c), o) && EstimateCost(Wanted(c), o, c.planning).None?
    ensures Qualifies(c, o) ==> !HasId(a.rejected, o.id)
  {
    var (s, req, ctx) := (SieveOf(c), Tighten(Req(c)), Planning(c));
    EveryoneAccounted(a.rejected, a.ranked, a.fallback, s, o);
    assert s.judge(o) == Judge(req, o, ctx) && s.screen(o) == Screened(c, o) && s.chance(o) == SuccessAt(c, o);
    MayRunIff(c, o);
    VerdictMeans(c, o);
  }

  /** What the rules, the bar and plan make of an offer. */
  lemma VerdictMeans(c: Call, o: Offer)
    ensures
      var v := Judge(Tighten(Req(c)), o, Planning(c));
      && (MayRun(c, o) <==> Screened(c, o).None? && SuccessAt(c, o) >= Floor(c) && v.Open?)
      && (v.Unpriced? ==> Passes(Wanted(c), o) && EstimateCost(Wanted(c), o, c.planning).None?)
  {
    ScreenedIff(c, o);
    WantedIs(c);
    OpenIff(Wanted(c), o, Planning(c));
    SameCost(Wanted(c), o, c.planning, Chances(AboveBar(c), Chance(c)));
    if Judge(Wanted(c), o, Planning(c)).Unpriced? { UnpricedMeans(Wanted(c), o, Planning(c)); }
  }

  /** What is ranked stands there with its own chance, cost and cost per success. */
  lemma StandingIs(a: Answer, c: Call, i: nat)
    requires Placed(a, c) && DistinctIds(c.offers) && i < |a.ranked|
    ensures exists o :: o in c.offers && o.id == a.ranked[i].id && Qualifies(c, o) && StandsFor(a.ranked[i], c, o)
  {
    var o := StandsAt(a, c, i);
    AboveIs(SieveOf(c), o);
    EveryOfferAccounted(a, c, o);
    VerdictIsOwn(SieveOf(c), o, c);
    WantedIs(c);
    SameCost(Wanted(c), o, c.planning, Chances(AboveBar(c), Chance(c)));
    CostOfOpen(Wanted(c), o, Planning(c));
    StandsForIs(a.ranked[i], c, o);
  }

  lemma StandsAt(a: Answer, c: Call, i: nat) returns (o: Offer)
    requires Placed(a, c) && i < |a.ranked|
    ensures o in Above(SieveOf(c)) && IsStanding(a.ranked[i], SieveOf(c), o)
  {
    var s := SieveOf(c);
    assert Stands(a.ranked[i], s);
    var k :| 0 <= k < |Above(s)| && IsStanding(a.ranked[i], s, Above(s)[k]);
    o := Above(s)[k];
  }

  lemma StandsForIs(e: Standing, c: Call, o: Offer)
    requires IsStanding(e, SieveOf(c), o) && Qualifies(c, o)
    requires EstimateCost(Wanted(c), o, c.planning) == Some(VerdictOf(SieveOf(c), o.id).value.cost)
    ensures StandsFor(e, c, o)
  {
  }

  ghost predicate StandsFor(e: Standing, c: Call, o: Offer) {
    var cost := EstimateCost(Wanted(c), o, c.planning);
    cost == Some(e.cost) && e.success == SuccessOf(c, o) && e.success > 0.0 && e.perSuccess == Some(e.cost / e.success)
  }

  lemma CostOfOpen(req: Requirements, o: Offer, ctx: Context)
    requires Judge(req, o, ctx).Open?
    ensures EstimateCost(req, o, ctx) == Some(Judge(req, o, ctx).cost)
  {
  }

  /** With distinct ids the verdict found under an offer's id is its own. */
  lemma VerdictIsOwn(s: Sieve, o: Offer, c: Call)
    requires s == SieveOf(c) && DistinctIds(c.offers) && o in Above(s)
    ensures VerdictOf(s, o.id) == Some(Judge(Tighten(Req(c)), o, Planning(c)))
  {
    var above := Above(s);
    var k :| 0 <= k < |above| && above[k] == o;
    assert VerdictOf(s, o.id).Some?;
    var j :| 0 <= j < |above| && above[j].id == o.id && Judged(above, s.judge)[j] == VerdictOf(s, o.id).value;
    assert above[j] in above;
    AboveIs(s, above[j]);
    AboveIs(s, o);
    SameOffer(c.offers, o, above[j]);
  }

  /** The fallback is the likeliest of those that break no rule, ties to the first name, when none meets the bar. */
  lemma FallbackIs(a: Answer, c: Call)
    requires Placed(a, c)
    ensures a.fallback.Some? <==>
              (exists o :: o in c.offers && BreaksNoRule(c, o))
              && forall o :: o in c.offers && BreaksNoRule(c, o) ==> !MeetsBar(c, o)
    ensures a.fallback.Some? ==> exists o :: o in c.offers && IsFallback(a.fallback.value, c, o)
  {
    var s := SieveOf(c);
    forall o
      ensures o in AboveBar(c) <==> o in c.offers && BreaksNoRule(c, o) && MeetsBar(c, o)
      ensures o in Survivors(s) <==> o in c.offers && BreaksNoRule(c, o)
    {
      AboveBarIs(c, o);
      SurvivorsAre(c, o);
    }
    if AboveBar(c) == [] {
      assert BestOf(a.fallback, s.chance, Survivors(s));
      if Survivors(s) != [] {
        assert Survivors(s)[0] in Survivors(s);
        BestIsFallback(a.fallback.value, c);
      }
    } else {
      assert AboveBar(c)[0] in AboveBar(c);
    }
  }

  lemma SurvivorsAre(c: Call, o: Offer)
    ensures o in Survivors(SieveOf(c)) <==> o in c.offers && BreaksNoRule(c, o)
  {
    AboveIs(SieveOf(c), o);
    ScreenedIff(c, o);
  }

  lemma BestIsFallback(f: Fallback, c: Call)
    requires BestOf(Some(f), Chance(c), Survivors(SieveOf(c)))
    ensures exists o :: o in c.offers && IsFallback(f, c, o)
  {
    var below := Survivors(SieveOf(c));
    forall p ensures p in below <==> p in c.offers && BreaksNoRule(c, p) {
      SurvivorsAre(c, p);
    }
    BestAmong(f, c, below);
  }

  lemma BestAmong(f: Fallback, c: Call, below: seq<Offer>)
    requires BestOf(Some(f), Chance(c), below)
    requires forall p :: p in below <==> p in c.offers && BreaksNoRule(c, p)
    ensures exists o :: o in c.offers && IsFallback(f, c, o)
  {
    var i :| 0 <= i < |below| && AsFallback(below[i], Chance(c)) == f;
    forall p | p in below ensures !LikelierThan(c, p, f) {
      NotLikelier(f, c, below, p);
    }
    assert below[i] in below;
    assert IsFallback(f, c, below[i]);
  }

  lemma NotLikelier(f: Fallback, c: Call, below: seq<Offer>, p: Offer)
    requires BestOf(Some(f), Chance(c), below) && p in below
    ensures !LikelierThan(c, p, f)
  {
    var j :| 0 <= j < |below| && below[j] == p;
    assert !Likelier(below[j], Chance(c), f);
  }

  ghost predicate LikelierThan(c: Call, o: Offer, f: Fallback) {
    SuccessOf(c, o) > f.success || (SuccessOf(c, o) == f.success && NamesBefore(o.id, f.id))
  }

  ghost predicate IsFallback(f: Fallback, c: Call, o: Offer) {
    && BreaksNoRule(c, o) && f.id == o.id && f.success == SuccessOf(c, o)
    && forall p :: p in c.offers && BreaksNoRule(c, p) ==> !LikelierThan(c, p, f)
  }

  /** The reason a rule gives for keeping an offer out is true of it. */
  lemma RuleIsTrue(c: Call, o: Offer)
    requires Screened(c, o).Some?
    ensures
      o.id !in c.exclude ==>
        match Screened(c, o).value
        case NeedsOwner => o.trust == "user-owned" && !Given(c.person)
        case HasNoOwner => o.trust == "user-owned" && Given(c.person) && !Given(o.owner)
        case AnotherPerson => o.trust == "user-owned" && Given(o.owner) && o.owner != c.person
        case NoCloud => c.rules.noCloud && o.trust != "user-owned"
        case Uncensored => !c.rules.uncensored && "model:uncensored" in o.capabilities
        case Streaming => o.streaming && (c.req.gpu || c.req.cpu >= 2.0)
        case _ => false
    ensures o.id in c.exclude ==> Screened(c, o).value == c.exclude[o.id]
  {
  }
}
