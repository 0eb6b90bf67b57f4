/**
 * escalate (src/placement.js): what happens when a try fails. Along any chain of failures on a fixed list of offers,
 * what failed is never named again, the rejected set only grows, the bar never falls, each failure is learned exactly
 * once, and after three tries the person is asked.
 */
module Escalation {
  import opened Prelude
  import opened Planner
  import opened S = Sieve
  import opened Placement
  import L = Learning

  /** A failed try as the caller reports it, and the time of the report. */
  datatype Failure = Failure(optionId: Option<string>, reason: string, provider: Option<string>, now: Option<int>)

  const TRIES := 3
  const FLOOR_STEP := 0.1

  function FailedKey(prev: Answer, f: Failure): Option<string> {
    if Given(f.optionId) then f.optionId else if Given(prev.selected) then prev.selected else None
  }

  /** The first offer known by this key, as an id or as an option key. */
  function FailedOffer(offers: seq<Offer>, key: Option<string>): Option<Offer>
    decreases |offers|
  {
    if offers == [] then None
    else if Some(offers[0].id) == key || Some(OptionKey(offers[0])) == key then Some(offers[0])
    else FailedOffer(offers[1..], key)
  }

  function FailedId(prev: Answer, f: Failure, offers: seq<Offer>): Option<string> {
    var o := FailedOffer(offers, FailedKey(prev, f));
    if o.Some? then Some(o.value.id) else FailedKey(prev, f)
  }

  /** The try to learn, when there is one: a named option, a person and a time. */
  function TryOf(prev: Answer, f: Failure, c: Call): Option<L.Try> {
    var (o, id) := (FailedOffer(c.offers, FailedKey(prev, f)), FailedId(prev, f, c.offers));
    if !Given(id) || !Given(c.person) || f.now.None? then None
    else
      var on := if o.Some? then OptionKey(o.value) else id.value;
      Some(L.Try(L.Id(c.person.value, on, Some(c.kind)), false, f.now.value))
  }

  function NextOutcomes(prev: Answer, f: Failure, c: Call): seq<L.Row> {
    var t := TryOf(prev, f, c);
    if t.Some? then L.Learned(c.outcomes, t.value, c.decay) else c.outcomes
  }

  function AddRejected(exclude: map<string, Why>, rejected: seq<Rejection>): map<string, Why>
    decreases |rejected|
  {
    if rejected == [] then exclude
    else
      var r := rejected[|rejected| - 1];
      var e := AddRejected(exclude, rejected[..|rejected| - 1]);
      if r.id in e then e else e[r.id := r.why]
  }

  function AddProvider(exclude: map<string, Why>, offers: seq<Offer>, provider: Option<string>): map<string, Why>
    decreases |offers|
  {
    if offers == [] then exclude
    else
      var o := offers[|offers| - 1];
      var e := AddProvider(exclude, offers[..|offers| - 1], provider);
      if o.provider == provider then e[o.id := SaidNo] else e
  }

  predicate SaysNo(f: Failure) { f.reason == "refused" || f.reason == "budget" }

  function Refuser(prev: Answer, f: Failure, offers: seq<Offer>): Option<string> {
    var o := FailedOffer(offers, FailedKey(prev, f));
    if Given(f.provider) then f.provider else if o.Some? then o.value.provider else None
  }

  /** Everything the next call of place leaves out. */
  function Excluding(prev: Answer, f: Failure, c: Call): map<string, Why> {
    var id := FailedId(prev, f, c.offers);
    var a := AddRejected(c.exclude, prev.rejected);
    var b := if Given(id) then a[id.value := Failed(f.reason)] else a;
    if SaysNo(f) && Given(Refuser(prev, f, c.offers)) then AddProvider(b, c.offers, Refuser(prev, f, c.offers)) else b
  }

  function NextFloor(prev: Answer, f: Failure, c: Call): Option<real> {
    if f.reason == "quality" then Some((if prev.floor.Some? then prev.floor.value else Floor(c)) + FLOOR_STEP)
    else if prev.floor.None? then c.floor else prev.floor
  }

  function NextCall(prev: Answer, f: Failure, c: Call): Call {
    var req := if f.reason == "timeout" then c.req.(objective := Some("lowest-latency")) else c.req;
    c.(req := req, exclude := Excluding(prev, f, c), floor := NextFloor(prev, f, c),
        outcomes := NextOutcomes(prev, f, c), now := f.now)
  }

  ghost predicate Asks(a: Answer) {
    a.selected.None? && a.ranked == [] && a.rejected == [] && a.fallback.None? && a.floor.None?
  }

  /** The next answer: a placement that leaves out what failed, or, after two escalations, a question to the person. */
  ghost predicate Escalated(next: Answer, prev: Answer, f: Failure, c: Call) {
    && next.escalations == prev.escalations + 1
    && next.outcomes == NextOutcomes(prev, f, c)
    && (if prev.escalations >= 2 then Asks(next) else Placed(next, NextCall(prev, f, c)))
  }

  method Escalate(prev: Answer, f: Failure, c: Call) returns (next: Answer)
    ensures Escalated(next, prev, f, c)
  {
    var key := FailedKey(prev, f);
    var failed := FailedOffer(c.offers, key);
    var failedId := if failed.Some? then Some(failed.value.id) else key;
    var outcomes := LearnFailure(prev, f, c, failed, failedId);
    if prev.escalations >= 2 {
      next := Answer(None, [], [], None, None, prev.escalations + 1, outcomes);
    } else {
      var exclude := Exclude(prev, f, c, failed, failedId);
      var was := if prev.floor.Some? then prev.floor.value else c.floor.GetOr(DEFAULT_FLOOR);
      var floor := if f.reason == "quality" then Some(was + FLOOR_STEP)
                   else if prev.floor.None? then c.floor else prev.floor;
      var req := if f.reason == "timeout" then c.req.(objective := Some("lowest-latency")) else c.req;
      var again := c.(req := req, exclude := exclude, floor := floor, outcomes := outcomes, now := f.now);
      assert again == NextCall(prev, f, c);
      next := Place(again, prev.escalations + 1);
    }
  }

  /** The failed try is learned here, and only here. */
  method LearnFailure(prev: Answer, f: Failure, c: Call, failed: Option<Offer>, failedId: Option<string>)
    returns (outcomes: seq<L.Row>)
    requires failed == FailedOffer(c.offers, FailedKey(prev, f)) && failedId == FailedId(prev, f, c.offers)
    ensures outcomes == NextOutcomes(prev, f, c)
  {
    outcomes := c.outcomes;
    if Given(failedId) && Given(c.person) && f.now.Some? {
      var option := if failed.Some? then OptionKey(failed.value) else failedId.value;
      outcomes := L.Learn(outcomes, L.Try(L.Id(c.person.value, option, Some(c.kind)), false, f.now.value), c.decay);
    }
  }

  /**
   * The exclusion list, built in place: what was rejected before, what failed, and everything of a provider that said
   * no.
   */
  method Exclude(prev: Answer, f: Failure, c: Call, failed: Option<Offer>, failedId: Option<string>)
    returns (exclude: map<string, Why>)
    requires failed == FailedOffer(c.offers, FailedKey(prev, f)) && failedId == FailedId(prev, f, c.offers)
    ensures exclude == Excluding(prev, f, c)
  {
    exclude := c.exclude;
    var i := 0;
    while i < |prev.rejected|
      invariant 0 <= i <= |prev.rejected| && exclude == AddRejected(c.exclude, prev.rejected[..i])
    {
      TakeSnoc(prev.rejected, i);
      var r := prev.rejected[i];
      if r.id !in exclude { exclude := exclude[r.id := r.why]; }
      i := i + 1;
    }
    assert prev.rejected[..i] == prev.rejected;
    if Given(failedId) { exclude := exclude[failedId.value := Failed(f.reason)]; }
    if SaysNo(f) {
      var provider := if Given(f.provider) then f.provider else if failed.Some? then failed.value.provider else None;
      if Given(provider) {
        ghost var before := exclude;
        i := 0;
        while i < |c.offers|
          invariant 0 <= i <= |c.offers| && exclude == AddProvider(before, c.offers[..i], provider)
        {
          TakeSnoc(c.offers, i);
          if c.offers[i].provider == provider { exclude := exclude[c.offers[i].id := SaidNo]; }
          i := i + 1;
        }
        assert c.offers[..i] == c.offers;
      }
    }
  }

  // -- One escalation ---------------------------------------------------------

  lemma {:induction false} AddRejectedHas(exclude: map<string, Why>, rejected: seq<Rejection>)
    ensures forall id :: id in AddRejected(exclude, rejected) <==> id in exclude || HasId(rejected, id)
    decreases |rejected|
  {
    if rejected != [] {
      var front := rejected[..|rejected| - 1];
      AddRejectedHas(exclude, front);
      assert rejected == front + [rejected[|rejected| - 1]];
      forall id ensures HasId(rejected, id) <==> HasId(front, id) || id == rejected[|rejected| - 1].id {
        if HasId(front, id) { var i :| 0 <= i < |front| && front[i].id == id; assert rejected[i].id == id; }
        if id == rejected[|rejected| - 1].id { assert rejected[|rejected| - 1].id == id; }
      }
    }
  }

  lemma {:induction false} AddProviderHas(exclude: map<string, Why>, offers: seq<Offer>, provider: Option<string>)
    ensures forall id :: id in exclude ==> id in AddProvider(exclude, offers, provider)
    ensures forall i :: 0 <= i < |offers| && offers[i].provider == provider ==>
      offers[i].id in AddProvider(exclude, offers, provider)
    decreases |offers|
  {
    if offers != [] {
      AddProviderHas(exclude, offers[..|offers| - 1], provider);
      assert forall i :: 0 <= i < |offers| - 1 ==> offers[i] == offers[..|offers| - 1][i];
    }
  }

  /** What failed is the option the caller names, else the one that was selected. */
  ghost predicate NamesFailed(prev: Answer, f: Failure, key: string) {
    key != ""
    && (f.optionId == Some(key) || ((f.optionId.None? || f.optionId == Some("")) && prev.selected == Some(key)))
  }

  /** An offer goes by its id, and by id and tag if it has a tag. */
  ghost predicate GoesBy(o: Offer, key: string) {
    o.id == key || (o.tag.Some? && o.tag.value != "" && o.id + "@" + o.tag.value == key)
  }

  ghost predicate FirstBy(offers: seq<Offer>, key: string, i: int) {
    0 <= i < |offers| && GoesBy(offers[i], key) && forall j :: 0 <= j < i ==> !GoesBy(offers[j], key)
  }

  lemma {:induction false} FailedOfferIs(offers: seq<Offer>, key: string)
    ensures forall i :: FirstBy(offers, key, i) ==> FailedOffer(offers, Some(key)) == Some(offers[i])
    ensures FailedOffer(offers, Some(key)).None? <==> forall j :: 0 <= j < |offers| ==> !GoesBy(offers[j], key)
    decreases |offers|
  {
    if offers != [] {
      var rest := offers[1..];
      FailedOfferIs(rest, key);
      assert forall j :: 0 < j < |offers| ==> offers[j] == rest[j - 1];
      forall i | FirstBy(offers, key, i) ensures FailedOffer(offers, Some(key)) == Some(offers[i]) {
        if i > 0 { assert FirstBy(rest, key, i - 1); }
      }
    }
  }

  /** The option that failed is the first offer that goes by its key; a key nobody goes by is an id of its own. */
  lemma FailedIs(prev: Answer, f: Failure, c: Call, key: string)
    requires NamesFailed(prev, f, key)
    ensures forall i :: FirstBy(c.offers, key, i) ==> FailedId(prev, f, c.offers) == Some(c.offers[i].id)
    ensures (forall j :: 0 <= j < |c.offers| ==> !GoesBy(c.offers[j], key)) ==> FailedId(prev, f, c.offers) == Some(key)
  {
    FailedOfferIs(c.offers, key);
  }

  lemma NothingFailed(prev: Answer, f: Failure, c: Call)
    requires forall key :: !NamesFailed(prev, f, key)
    ensures !Given(FailedId(prev, f, c.offers)) && TryOf(prev, f, c).None?
  {
    if Given(f.optionId) { assert NamesFailed(prev, f, f.optionId.value); }
    if Given(prev.selected) { assert NamesFailed(prev, f, prev.selected.value); }
    NobodyFailed(c.offers);
  }

  lemma {:induction false} NobodyFailed(offers: seq<Offer>)
    ensures FailedOffer(offers, None).None?
    decreases |offers|
  {
    if offers != [] { NobodyFailed(offers[1..]); }
  }

  /** The failure is learned under the option's id, and its tag if it has one, as a try that did not succeed. */
  lemma TryIs(prev: Answer, f: Failure, c: Call, key: string, i: int)
    requires NamesFailed(prev, f, key) && FirstBy(c.offers, key, i) && Given(c.person) && f.now.Some?
    requires c.offers[i].id != ""
    ensures
      var o := c.offers[i];
      var on := if o.tag.Some? && o.tag.value != "" then o.id + "@" + o.tag.value else o.id;
      TryOf(prev, f, c) == Some(L.Try(L.Id(c.person.value, on, Some(c.kind)), false, f.now.value))
  {
    FailedOfferIs(c.offers, key);
  }

  /** Without a person or a time nothing is learned. */
  lemma NoTry(prev: Answer, f: Failure, c: Call)
    requires !Given(c.person) || f.now.None?
    ensures NextOutcomes(prev, f, c) == c.outcomes
  {
  }

  /** Refused or over budget: the provider the caller names, else that of the offer that failed. */
  ghost predicate Refuses(prev: Answer, f: Failure, c: Call, provider: string) {
    && (f.reason == "refused" || f.reason == "budget") && provider != ""
    && (f.provider == Some(provider)
        || ((f.provider.None? || f.provider == Some(""))
            && exists key, i :: NamesFailed(prev, f, key) && FirstBy(c.offers, key, i)
                                && c.offers[i].provider == Some(provider)))
  }

  lemma RefuserIs(prev: Answer, f: Failure, c: Call, provider: string)
    ensures Refuses(prev, f, c, provider)
            <==> SaysNo(f) && Given(Refuser(prev, f, c.offers)) && Refuser(prev, f, c.offers) == Some(provider)
  {
    forall key | NamesFailed(prev, f, key) ensures FailedKey(prev, f) == Some(key) {
    }
    var key := FailedKey(prev, f);
    if Given(key) {
      assert NamesFailed(prev, f, key.value);
      FailedOfferIs(c.offers, key.value);
      if !(forall j :: 0 <= j < |c.offers| ==> !GoesBy(c.offers[j], key.value)) {
        var i := FirstIndex(c.offers, key.value);
        assert FirstBy(c.offers, key.value, i);
      }
    } else {
      NobodyFailed(c.offers);
    }
  }

  lemma {:induction false} FirstIndex(offers: seq<Offer>, key: string) returns (i: int)
    requires exists j :: 0 <= j < |offers| && GoesBy(offers[j], key)
    ensures FirstBy(offers, key, i)
    decreases |offers|
  {
    if GoesBy(offers[0], key) {
      i := 0;
    } else {
      var j :| 0 <= j < |offers| && GoesBy(offers[j], key);
      assert offers[1..][j - 1] == offers[j];
      i := FirstIndex(offers[1..], key);
      i := i + 1;
    }
  }

  lemma {:induction false} AddProviderOnly(exclude: map<string, Why>, offers: seq<Offer>, provider: Option<string>)
    ensures forall id :: id in AddProvider(exclude, offers, provider) ==>
              id in exclude || exists i :: 0 <= i < |offers| && offers[i].id == id && offers[i].provider == provider
    decreases |offers|
  {
    if offers != [] {
      var n := |offers| - 1;
      AddProviderOnly(exclude, offers[..n], provider);
      forall id | id in AddProvider(exclude, offers, provider) && id !in exclude
        ensures exists i :: 0 <= i < |offers| && offers[i].id == id && offers[i].provider == provider
      {
        if id in AddProvider(exclude, offers[..n], provider) {
          var i :| 0 <= i < n && offers[..n][i].id == id && offers[..n][i].provider == provider;
          assert offers[i].id == id;
        } else {
          assert offers[n].id == id;
        }
      }
    }
  }

  /** The next try leaves out exactly what was left out or rejected before, what failed, and a refuser's offers. */
  lemma ExcludedIff(prev: Answer, f: Failure, c: Call, id: string)
    ensures id in NextCall(prev, f, c).exclude
            <==> IsOut(id, prev, f, c)
                 || exists o :: o in c.offers && o.id == id && o.provider.Some? && Refuses(prev, f, c, o.provider.value)
  {
    var (fid, provider) := (FailedId(prev, f, c.offers), Refuser(prev, f, c.offers));
    var a := AddRejected(c.exclude, prev.rejected);
    var b := if Given(fid) then a[fid.value := Failed(f.reason)] else a;
    AddRejectedHas(c.exclude, prev.rejected);
    AddProviderHas(b, c.offers, provider);
    AddProviderOnly(b, c.offers, provider);
    forall p ensures Refuses(prev, f, c, p) <==> SaysNo(f) && Given(provider) && provider == Some(p) {
      RefuserIs(prev, f, c, p);
    }
    assert id in b <==> IsOut(id, prev, f, c);
  }

  /**
   * Besides, the next try asks for the lowest latency exactly after a timeout, raises the bar by a tenth exactly after
   * a failure of quality, from the bar it had or one half, and is otherwise the same call.
   */
  lemma NextCallIs(prev: Answer, f: Failure, c: Call)
    ensures
      var n := NextCall(prev, f, c);
      var bar := if prev.floor.Some? then prev.floor else c.floor;
      && n.req == (if f.reason == "timeout" then c.req.(objective := Some("lowest-latency")) else c.req)
      && n.floor == (if f.reason == "quality" then Some((if bar.Some? then bar.value else 0.5) + 0.1) else bar)
      && n.now == f.now
      && n == c.(req := n.req, floor := n.floor, exclude := n.exclude, outcomes := n.outcomes, now := n.now)
  {
  }

  /** An id is out for good: excluded by the caller, rejected before, or what just failed. */
  ghost predicate IsOut(id: string, prev: Answer, f: Failure, c: Call) {
    || id in c.exclude
    || HasId(prev.rejected, id)
    || (Given(FailedId(prev, f, c.offers)) && FailedId(prev, f, c.offers) == Some(id))
  }

  lemma OutIsExcluded(id: string, prev: Answer, f: Failure, c: Call)
    requires IsOut(id, prev, f, c)
    ensures id in Excluding(prev, f, c)
  {
    AddRejectedHas(c.exclude, prev.rejected);
    var fid := FailedId(prev, f, c.offers);
    var a := AddRejected(c.exclude, prev.rejected);
    var b := if Given(fid) then a[fid.value := Failed(f.reason)] else a;
    assert id in b;
    AddProviderHas(b, c.offers, Refuser(prev, f, c.offers));
  }

  lemma ExcludedNotMentioned(id: string, a: Answer, c: Call)
    requires Placed(a, c) && id in c.exclude
    ensures !Mentioned(a, id)
  {
    if Mentioned(a, id) {
      MentionedPassRules(a, c, id);
      assert false;
    }
  }

  /** What is on the exclusion list is named nowhere in the answer, and every offer with that id is rejected. */
  lemma ExcludedStaysOut(id: string, a: Answer, c: Call)
    requires Placed(a, c) && id in c.exclude
    ensures !Mentioned(a, id)
    ensures (exists o :: o in c.offers && o.id == id) ==> HasId(a.rejected, id)
  {
    ExcludedNotMentioned(id, a, c);
    if exists o :: o in c.offers && o.id == id {
      var o :| o in c.offers && o.id == id;
      OutsideIsRejected(a.rejected, a.ranked, a.fallback, SieveOf(c), o);
    }
  }

  /** A provider that said no is not asked again in the next try: none of its offers is named. */
  lemma RefuserIsLeftOut(next: Answer, prev: Answer, f: Failure, c: Call, o: Offer)
    requires Escalated(next, prev, f, c) && prev.escalations < 2 && o in c.offers
    requires o.provider.Some? && Refuses(prev, f, c, o.provider.value)
    ensures !Mentioned(next, o.id) && HasId(next.rejected, o.id)
  {
    RefuserIs(prev, f, c, o.provider.value);
    var fid := FailedId(prev, f, c.offers);
    var a := AddRejected(c.exclude, prev.rejected);
    var b := if Given(fid) then a[fid.value := Failed(f.reason)] else a;
    AddProviderHas(b, c.offers, Refuser(prev, f, c.offers));
    var i :| 0 <= i < |c.offers| && c.offers[i] == o;
    ExcludedStaysOut(o.id, next, NextCall(prev, f, c));
  }

  // -- Chains of tries --------------------------------------------------------

  ghost predicate Offered(c: Call, id: string) { exists o :: o in c.offers && o.id == id }

  /**
   * What a placement does with the exclusion list: nothing on it is named, and all of it that is offered is rejected.
   */
  ghost predicate LeavesOut(a: Answer, c: Call, exclude: map<string, Why>) {
    && (forall id :: id in exclude ==> !Mentioned(a, id))
    && (forall id :: id in exclude && Offered(c, id) ==> HasId(a.rejected, id))
    && (forall id :: Mentioned(a, id) || HasId(a.rejected, id) ==> Offered(c, id))
  }

  /** What a chain of tries relies on, of a step from one answer to the next. */
  ghost predicate Step(next: Answer, prev: Answer, f: Failure, c: Call) {
    && next.escalations == prev.escalations + 1
    && next.outcomes == NextOutcomes(prev, f, c)
    && (prev.escalations >= 2 ==> Asks(next))
    && (prev.escalations < 2 ==> next.floor == Some(NextFloor(prev, f, c).GetOr(DEFAULT_FLOOR)))
    && (prev.escalations < 2 ==> LeavesOut(next, c, Excluding(prev, f, c)))
  }

  lemma RejectedAreOffered(a: Answer, c: Call, id: string)
    requires Placed(a, c) && HasId(a.rejected, id)
    ensures Offered(c, id)
  {
    var k :| 0 <= k < |a.rejected| && a.rejected[k].id == id;
    assert Justified(a.rejected[k], SieveOf(c));
    var j :| 0 <= j < |c.offers| && c.offers[j].id == id && Reason(SieveOf(c), c.offers[j]) == Some(a.rejected[k].why);
    assert c.offers[j] in c.offers;
  }

  lemma PlacedLeavesOut(a: Answer, c: Call)
    requires Placed(a, c)
    ensures LeavesOut(a, c, c.exclude)
  {
    forall id | id in c.exclude ensures !Mentioned(a, id) && (Offered(c, id) ==> HasId(a.rejected, id)) {
      ExcludedStaysOut(id, a, c);
    }
    forall id | Mentioned(a, id) || HasId(a.rejected, id) ensures Offered(c, id) {
      if Mentioned(a, id) { MentionedPassRules(a, c, id); } else { RejectedAreOffered(a, c, id); }
    }
  }

  /** Every escalation is such a step. */
  lemma EscalationSteps(next: Answer, prev: Answer, f: Failure, c: Call)
    requires Escalated(next, prev, f, c)
    ensures Step(next, prev, f, c)
  {
    if prev.escalations < 2 {
      PlacedLeavesOut(next, NextCall(prev, f, c));
      assert forall id :: Offered(NextCall(prev, f, c), id) ==> Offered(c, id);
      assert forall id :: Offered(c, id) ==> Offered(NextCall(prev, f, c), id);
    }
  }

  /** The context of a step: what was learned so far is passed on. */
  function At(c: Call, prev: Answer): Call { c.(outcomes := prev.outcomes) }

  /** The first answer of a chain is a placement. */
  ghost predicate Starts(a: Answer, c: Call) {
    a.escalations == 0 && a.outcomes == c.outcomes && a.floor == Some(Floor(c)) && LeavesOut(a, c, c.exclude)
  }

  lemma PlacementStarts(a: Answer, c: Call)
    requires Placed(a, c) && a.escalations == 0
    ensures Starts(a, c)
  {
    PlacedLeavesOut(a, c);
  }

  /** A placement, and a step after each failure; the offers, the person and the rules stay the same. */
  ghost predicate Chain(answers: seq<Answer>, failures: seq<Failure>, c: Call) {
    && |answers| == |failures| + 1
    && Starts(answers[0], c)
    && forall i :: 0 <= i < |failures| ==> StepAt(answers, failures, c, i)
  }

  ghost predicate StepAt(answers: seq<Answer>, failures: seq<Failure>, c: Call, i: int)
    requires 0 <= i < |failures| < |answers|
  {
    Step(answers[i + 1], answers[i], failures[i], At(c, answers[i]))
  }

  ghost predicate EscalatedAt(answers: seq<Answer>, failures: seq<Failure>, c: Call, i: int)
    requires 0 <= i < |failures| < |answers|
  {
    Escalated(answers[i + 1], answers[i], failures[i], At(c, answers[i]))
  }

  /** Every run of place and then escalate is such a chain. */
  lemma RunsAreChains(answers: seq<Answer>, failures: seq<Failure>, c: Call)
    requires |answers| == |failures| + 1 && Placed(answers[0], c) && answers[0].escalations == 0
    requires forall i :: 0 <= i < |failures| ==> EscalatedAt(answers, failures, c, i)
    ensures Chain(answers, failures, c)
  {
    PlacementStarts(answers[0], c);
    forall i | 0 <= i < |failures| ensures StepAt(answers, failures, c, i) {
      assert EscalatedAt(answers, failures, c, i);
      EscalationSteps(answers[i + 1], answers[i], failures[i], At(c, answers[i]));
    }
  }

  lemma {:induction false} Counted(answers: seq<Answer>, failures: seq<Failure>, c: Call, i: nat)
    requires Chain(answers, failures, c) && i < |answers|
    ensures answers[i].escalations == i
    ensures i >= TRIES ==> Asks(answers[i])
    ensures i < TRIES ==> answers[i].floor.Some?
    ensures forall id :: HasId(answers[i].rejected, id) || Mentioned(answers[i], id) ==> Offered(c, id)
    decreases i
  {
    if i > 0 {
      Counted(answers, failures, c, i - 1);
      assert StepAt(answers, failures, c, i - 1);
      assert forall id :: Offered(At(c, answers[i - 1]), id) ==> Offered(c, id);
    }
  }

  /** At most three tries: from the third failure on the answer selects nothing and asks the person. */
  lemma ThreeTries(answers: seq<Answer>, failures: seq<Failure>, c: Call, i: nat)
    requires Chain(answers, failures, c) && i < |answers| && answers[i].selected.Some?
    ensures i < TRIES
  {
    Counted(answers, failures, c, i);
  }

  /** What is out at one step is named nowhere in the next answer, and is rejected there if it is offered. */
  lemma OutOnce(answers: seq<Answer>, failures: seq<Failure>, c: Call, i: nat, id: string)
    requires Chain(answers, failures, c) && i < |failures| && IsOut(id, answers[i], failures[i], c)
    ensures !Mentioned(answers[i + 1], id)
    ensures i + 1 < TRIES && Offered(c, id) ==> HasId(answers[i + 1].rejected, id)
  {
    Counted(answers, failures, c, i);
    assert StepAt(answers, failures, c, i);
    if i + 1 < TRIES {
      OutIsExcluded(id, answers[i], failures[i], At(c, answers[i]));
      assert Offered(c, id) ==> Offered(At(c, answers[i]), id);
    }
  }

  /** The rejected set only grows, until the person is asked. */
  lemma {:induction false} RejectedGrows(answers: seq<Answer>, failures: seq<Failure>, c: Call, i: nat, j: nat,
      id: string)
    requires Chain(answers, failures, c) && i <= j < |answers| && j < TRIES && HasId(answers[i].rejected, id)
    ensures HasId(answers[j].rejected, id)
    decreases j
  {
    if i < j {
      RejectedGrows(answers, failures, c, i, j - 1, id);
      OutOnce(answers, failures, c, j - 1, id);
      Counted(answers, failures, c, j - 1);
    }
  }

  /** What failed is never selected, ranked or named as the fallback again. */
  lemma NeverAgain(answers: seq<Answer>, failures: seq<Failure>, c: Call, i: nat, j: nat)
    requires Chain(answers, failures, c) && i < j < |answers| && Given(FailedId(answers[i], failures[i], c.offers))
    ensures !Mentioned(answers[j], FailedId(answers[i], failures[i], c.offers).value)
  {
    var id := FailedId(answers[i], failures[i], c.offers).value;
    OutOnce(answers, failures, c, i, id);
    Counted(answers, failures, c, j);
    if i + 1 < j < TRIES && Offered(c, id) {
      RejectedGrows(answers, failures, c, i + 1, j - 1, id);
      OutOnce(answers, failures, c, j - 1, id);
    }
  }

  /** When each failure is of what was selected, no two tries run on the same offer. */
  lemma TriesAreDistinct(answers: seq<Answer>, failures: seq<Failure>, c: Call, i: nat, j: nat)
    requires Chain(answers, failures, c) && i < j < |answers| && answers[i].selected.Some? && answers[j].selected.Some?
    requires FailedId(answers[i], failures[i], c.offers) == answers[i].selected && Given(answers[i].selected)
    ensures answers[i].selected != answers[j].selected
  {
    NeverAgain(answers, failures, c, i, j);
  }

  /** The bar never falls, and a failure of quality raises it by a tenth for good. */
  lemma {:induction false} BarNeverFalls(answers: seq<Answer>, failures: seq<Failure>, c: Call, i: nat, j: nat)
    requires Chain(answers, failures, c) && i <= j < |answers| && j < TRIES
    ensures answers[i].floor.Some? && answers[j].floor.Some? && answers[i].floor.value <= answers[j].floor.value
    ensures i < j && failures[i].reason == "quality" ==> answers[j].floor.value >= answers[i].floor.value + FLOOR_STEP
    decreases j
  {
    Counted(answers, failures, c, i);
    if i < j {
      BarNeverFalls(answers, failures, c, i, j - 1);
      Counted(answers, failures, c, j - 1);
      assert StepAt(answers, failures, c, j - 1);
    }
  }

  /** What each failure of a chain gives to learn, if anything. */
  ghost function TriesOf(answers: seq<Answer>, failures: seq<Failure>, c: Call): (r: seq<Option<L.Try>>)
    requires |failures| < |answers|
    ensures |r| == |failures| && forall i :: 0 <= i < |r| ==> r[i] == TryOf(answers[i], failures[i], c)
  {
    seq(|failures|, i requires 0 <= i < |failures| => TryOf(answers[i], failures[i], c))
  }

  /** The tries there are, in order. */
  function Known(tries: seq<Option<L.Try>>): (r: seq<L.Try>)
    ensures |r| <= |tries|
    ensures (forall i :: 0 <= i < |tries| ==> tries[i].Some?) ==> |r| == |tries|
    decreases |tries|
  {
    if tries == [] then []
    else
      var t := tries[|tries| - 1];
      Known(tries[..|tries| - 1]) + (if t.Some? then [t.value] else [])
  }

  function LearnAll(rows: seq<L.Row>, tries: seq<L.Try>, d: L.Decay): seq<L.Row>
    decreases |tries|
  {
    if tries == [] then rows else L.Learned(LearnAll(rows, tries[..|tries| - 1], d), tries[|tries| - 1], d)
  }

  function LearnMaybe(rows: seq<L.Row>, t: Option<L.Try>, d: L.Decay): seq<L.Row> {
    if t.Some? then L.Learned(rows, t.value, d) else rows
  }

  lemma LearnAllSnoc(rows: seq<L.Row>, tries: seq<L.Try>, t: L.Try, d: L.Decay)
    ensures LearnAll(rows, tries + [t], d) == L.Learned(LearnAll(rows, tries, d), t, d)
  {
    assert (tries + [t])[..|tries|] == tries;
  }

  /** Learning one failure after another is learning all of them. */
  lemma {:induction false} LearnedInTurn(outcomes: seq<seq<L.Row>>, tries: seq<Option<L.Try>>, d: L.Decay, n: nat)
    requires |outcomes| == |tries| + 1 && n <= |tries|
    requires forall i :: 0 <= i < |tries| ==> outcomes[i + 1] == LearnMaybe(outcomes[i], tries[i], d)
    ensures outcomes[n] == LearnAll(outcomes[0], Known(tries[..n]), d)
    decreases n
  {
    if n > 0 {
      LearnedInTurn(outcomes, tries, d, n - 1);
      TakeSnoc(tries, n - 1);
      assert tries[..n][..n - 1] == tries[..n - 1];
      var before := Known(tries[..n - 1]);
      assert outcomes[n - 1 + 1] == LearnMaybe(outcomes[n - 1], tries[n - 1], d);
      if tries[n - 1].Some? {
        LearnAllSnoc(outcomes[0], before, tries[n - 1].value, d);
      } else {
        assert before + [] == before;
      }
    }
  }

  lemma StepLearns(answers: seq<Answer>, failures: seq<Failure>, c: Call, i: nat)
    requires Chain(answers, failures, c) && i < |failures|
    ensures answers[i + 1].outcomes == LearnMaybe(answers[i].outcomes, TryOf(answers[i], failures[i], c), c.decay)
  {
    assert StepAt(answers, failures, c, i);
    assert TryOf(answers[i], failures[i], At(c, answers[i])) == TryOf(answers[i], failures[i], c);
  }

  /** Each failure is learned exactly once, also by the last answer, which only asks. */
  lemma LearnedOnce(answers: seq<Answer>, failures: seq<Failure>, c: Call, n: nat)
    requires Chain(answers, failures, c) && n < |answers|
    ensures answers[n].outcomes == LearnAll(c.outcomes, Known(TriesOf(answers, failures, c)[..n]), c.decay)
  {
    var outcomes := seq(|answers|, i requires 0 <= i < |answers| => answers[i].outcomes);
    var tries := TriesOf(answers, failures, c);
    forall i | 0 <= i < |tries| ensures outcomes[i + 1] == LearnMaybe(outcomes[i], tries[i], c.decay) {
      StepLearns(answers, failures, c, i);
    }
    LearnedInTurn(outcomes, tries, c.decay, n);
  }
}
