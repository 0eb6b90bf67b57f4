/**
 * The loops of place (src/placement.js): offers are screened one by one, held to a quality bar, and then given the
 * planner's verdict; whoever drops out is rejected once, with the first reason. What screens, what the chance of
 * success is and what the planner says are parameters here.
 */
module Sieve {
  import opened Prelude
  import opened Planner

  datatype Why =
    | NeedsOwner | HasNoOwner | AnotherPerson | NoCloud | Uncensored | Streaming | BelowBar | Missed(verdict: Verdict)
    | Failed(reason: string) | SaidNo

  datatype Rejection = Rejection(id: string, why: Why)

  /** `perSuccess` is None for Infinity. */
  datatype Standing = Standing(id: string, success: real, cost: real, perSuccess: Option<real>)

  function CostPerSuccess(cost: real,
      success: real): Option<real> { if success > 0.0 then Some(cost / success) else None }

  function StandingOf(o: Offer, success: real, cost: real): Standing {
    Standing(o.id, success, cost, CostPerSuccess(cost, success))
  }

  datatype Fallback = Fallback(id: string, success: real)

  datatype Sieve = Sift(
    offers: seq<Offer>, screen: Offer -> Option<Why>, chance: Offer -> real, floor: real, judge: Offer -> Verdict)

  function Filter(offers: seq<Offer>, keep: Offer -> bool): (r: seq<Offer>)
    ensures forall i :: 0 <= i < |r| ==> r[i] in offers && keep(r[i])
    ensures forall i :: 0 <= i < |offers| && keep(offers[i]) ==> offers[i] in r
    decreases |offers|
  {
    if offers == [] then [] else
      var rest := Filter(offers[1..], keep);
      assert forall i :: 0 < i < |offers| ==> offers[i] == offers[1..][i - 1];
      (if keep(offers[0]) then [offers[0]] else []) + rest
  }

  lemma {:induction false} FilterSnoc(offers: seq<Offer>, o: Offer, keep: Offer -> bool)
    ensures Filter(offers + [o], keep) == Filter(offers, keep) + (if keep(o) then [o] else [])
    decreases |offers|
  {
    if offers == [] {
      assert offers + [o] == [o] && [o][1..] == [];
    } else {
      assert (offers + [o])[1..] == offers[1..] + [o];
      FilterSnoc(offers[1..], o, keep);
    }
  }

  lemma FilterNext(offers: seq<Offer>, i: nat, keep: Offer -> bool)
    requires i < |offers|
    ensures Filter(offers[..i + 1], keep) == Filter(offers[..i], keep) + (if keep(offers[i]) then [offers[i]] else [])
  {
    TakeSnoc(offers, i);
    FilterSnoc(offers[..i], offers[i], keep);
  }

  function Unscreened(screen: Offer -> Option<Why>): Offer -> bool { (o: Offer) => screen(o).None? }

  function Meets(chance: Offer -> real, floor: real): Offer -> bool { (o: Offer) => chance(o) >= floor }

  function Survivors(s: Sieve): seq<Offer> { Filter(s.offers, Unscreened(s.screen)) }

  function Above(s: Sieve): seq<Offer> { Filter(Survivors(s), Meets(s.chance, s.floor)) }

  predicate IsAbove(s: Sieve, o: Offer) { s.screen(o).None? && s.chance(o) >= s.floor }

  predicate IsBelow(s: Sieve, o: Offer) { s.screen(o).None? && s.chance(o) < s.floor }

  lemma AboveIs(s: Sieve, o: Offer)
    ensures o in Above(s) <==> o in s.offers && IsAbove(s, o)
    ensures o in Survivors(s) <==> o in s.offers && s.screen(o).None?
  {
    var (a, b) := (Above(s), Survivors(s));
    if o in a { var i :| 0 <= i < |a| && a[i] == o; }
    if o in b { var i :| 0 <= i < |b| && b[i] == o; }
    if o in s.offers { var i :| 0 <= i < |s.offers| && s.offers[i] == o; }
  }

  function Judged(offers: seq<Offer>, judge: Offer -> Verdict): (r: seq<Verdict>)
    ensures |r| == |offers| && forall i :: 0 <= i < |r| ==> r[i] == judge(offers[i])
  {
    seq(|offers|, i requires 0 <= i < |offers| => judge(offers[i]))
  }

  /** The verdict plan gave for an id: the last candidate with that id, as a Map built from a list keeps it. */
  function VerdictIn(offers: seq<Offer>, verdicts: seq<Verdict>, id: string): Option<Verdict>
    requires |offers| == |verdicts|
    ensures VerdictIn(offers, verdicts, id).Some? ==>
      exists i :: 0 <= i < |offers| && offers[i].id == id && verdicts[i] == VerdictIn(offers, verdicts, id).value
    ensures VerdictIn(offers, verdicts, id).None? ==> forall i :: 0 <= i < |offers| ==> offers[i].id != id
    decreases |offers|
  {
    var n := |offers|;
    if n == 0 then None else if offers[n - 1].id == id then Some(verdicts[n - 1])
    else VerdictIn(offers[..n - 1], verdicts[..n - 1], id)
  }

  function VerdictOf(s: Sieve, id: string): Option<Verdict> { VerdictIn(Above(s), Judged(Above(s), s.judge), id) }

  // -- What the loops must leave ----------------------------------------------

  /** Why an offer is out, at whichever stage it drops out, or None when it competes or is merely unpriced. */
  ghost function Reason(s: Sieve, o: Offer): Option<Why> {
    if s.screen(o).Some? then s.screen(o)
    else if s.chance(o) < s.floor then Some(BelowBar)
    else if s.judge(o).Open? || s.judge(o).Unpriced? then None else Some(Missed(s.judge(o)))
  }

  ghost predicate Justified(r: Rejection, s: Sieve) {
    exists i :: 0 <= i < |s.offers| && s.offers[i].id == r.id && Reason(s, s.offers[i]) == Some(r.why)
  }

  predicate HasId(rejected: seq<Rejection>, id: string) {
    exists i :: 0 <= i < |rejected| && rejected[i].id == id
  }

  ghost predicate AllJustified(rejected: seq<Rejection>, s: Sieve) {
    forall i :: 0 <= i < |rejected| ==> Justified(rejected[i], s)
  }

  /** Whoever is rejected in `a` is rejected in `b`. */
  ghost predicate Extends(b: seq<Rejection>, a: seq<Rejection>) {
    forall id :: HasId(a, id) ==> HasId(b, id)
  }

  ghost predicate OnceEach(rejected: seq<Rejection>) {
    forall i, j :: 0 <= i < j < |rejected| ==> rejected[i].id != rejected[j].id
  }

  ghost predicate IsStanding(e: Standing, s: Sieve, o: Offer) {
    && VerdictOf(s, e.id).Some? && VerdictOf(s, e.id).value.Open?
    && o.id == e.id && e == StandingOf(o, s.chance(o), VerdictOf(s, e.id).value.cost)
  }

  ghost predicate Stands(e: Standing, s: Sieve) { exists i :: 0 <= i < |Above(s)| && IsStanding(e, s, Above(s)[i]) }

  predicate Better(a: Fallback, b: Fallback) {
    a.success > b.success || (a.success == b.success && NamesBefore(a.id, b.id))
  }

  function AsFallback(o: Offer, chance: Offer -> real): Fallback { Fallback(o.id, chance(o)) }

  /** The best of the options below the bar: none of them is better, ties to the first name. */
  ghost predicate BestOf(f: Option<Fallback>, chance: Offer -> real, below: seq<Offer>) {
    && (f.None? <==> below == [])
    && (f.Some? ==> exists i :: 0 <= i < |below| && AsFallback(below[i], chance) == f.value)
    && (f.Some? ==> forall i :: 0 <= i < |below| ==> !Likelier(below[i], chance, f.value))
  }

  /** A higher chance, or the same one under an earlier name. */
  ghost predicate Likelier(o: Offer, chance: Offer -> real, f: Fallback) {
    chance(o) > f.success || (chance(o) == f.success && NamesBefore(o.id, f.id))
  }

  /** An option above the bar is ranked, or unpriced, or rejected by the planner. */
  ghost predicate Accounted(id: string, rejected: seq<Rejection>, ranked: seq<Standing>, s: Sieve) {
    var v := VerdictOf(s, id);
    v.Some?
    && (if v.value.Open? then exists k :: 0 <= k < |ranked| && ranked[k].id == id
        else v.value.Unpriced? || HasId(rejected, id))
  }

  ghost predicate AllAccounted(above: seq<Offer>, n: int, rejected: seq<Rejection>, ranked: seq<Standing>, s: Sieve) {
    forall i :: 0 <= i < n <= |above| ==> Accounted(above[i].id, rejected, ranked, s)
  }

  ghost predicate Sifted(rejected: seq<Rejection>, ranked: seq<Standing>, fallback: Option<Fallback>, s: Sieve) {
    && OnceEach(rejected) && AllJustified(rejected, s)
    && (forall i :: 0 <= i < |s.offers| && !IsAbove(s, s.offers[i]) ==> HasId(rejected, s.offers[i].id))
    && AllAccounted(Above(s), |Above(s)|, rejected, ranked, s)
    && AllStand(ranked, s)
    && (if Above(s) == [] then BestOf(fallback, s.chance, Survivors(s)) else fallback.None?)
  }

  function Reject(rejected: seq<Rejection>, id: string, why: Why): (r: seq<Rejection>)
    ensures HasId(r, id) && Extends(r, rejected)
    ensures forall i :: 0 <= i < |r| ==> r[i] in rejected || r[i] == Rejection(id, why)
    ensures OnceEach(rejected) ==> OnceEach(r)
  {
    if HasId(rejected, id) then rejected
    else
      var r := rejected + [Rejection(id, why)];
      assert r[|rejected|].id == id;
      assert forall i :: 0 <= i < |rejected| ==> r[i] == rejected[i];
      r
  }

  // -- The loops --------------------------------------------------------------

  /** Of the first n offers, all that `out` holds of are rejected. */
  ghost predicate AllOut(offers: seq<Offer>, n: int, out: Offer -> bool, rejected: seq<Rejection>) {
    forall k :: 0 <= k < n <= |offers| && out(offers[k]) ==> HasId(rejected, offers[k].id)
  }

  lemma OneMoreOut(offers: seq<Offer>, n: nat, out: Offer -> bool, was: seq<Rejection>, rejected: seq<Rejection>)
    requires n < |offers| && AllOut(offers, n, out, was) && Extends(rejected, was)
    requires (out(offers[n]) ==> HasId(rejected, offers[n].id))
    ensures AllOut(offers, n + 1, out, rejected)
  {
  }

  function ScreenedOut(screen: Offer -> Option<Why>): Offer -> bool { (o: Offer) => screen(o).Some? }

  function Below(chance: Offer -> real, floor: real): Offer -> bool { (o: Offer) => chance(o) < floor }

  /** The first loop of place: the rules, and the machines that are streaming. */
  method Screen(s: Sieve) returns (rejected: seq<Rejection>, survivors: seq<Offer>)
    ensures survivors == Survivors(s) && OnceEach(rejected) && AllJustified(rejected, s)
    ensures AllOut(s.offers, |s.offers|, ScreenedOut(s.screen), rejected)
  {
    rejected, survivors := [], [];
    var i := 0;
    while i < |s.offers|
      invariant 0 <= i <= |s.offers| && OnceEach(rejected) && AllJustified(rejected, s)
      invariant survivors == Filter(s.offers[..i], Unscreened(s.screen))
      invariant AllOut(s.offers, i, ScreenedOut(s.screen), rejected)
    {
      var o := s.offers[i];
      var why := s.screen(o);
      ghost var was := rejected;
      FilterNext(s.offers, i, Unscreened(s.screen));
      if why.Some? {
        ScreenedIsJustified(s, i);
        rejected := Reject(rejected, o.id, why.value);
      } else {
        survivors := survivors + [o];
      }
      OneMoreOut(s.offers, i, ScreenedOut(s.screen), was, rejected);
      i := i + 1;
    }
    assert s.offers[..i] == s.offers;
  }

  lemma ScreenedIsJustified(s: Sieve, i: nat)
    requires i < |s.offers| && s.screen(s.offers[i]).Some?
    ensures Justified(Rejection(s.offers[i].id, s.screen(s.offers[i]).value), s)
  {
    assert Reason(s, s.offers[i]) == s.screen(s.offers[i]);
  }

  lemma BelowIsJustified(s: Sieve, o: Offer)
    requires o in s.offers && IsBelow(s, o)
    ensures Justified(Rejection(o.id, BelowBar), s)
  {
    var k :| 0 <= k < |s.offers| && s.offers[k] == o;
    assert Reason(s, s.offers[k]) == Some(BelowBar);
  }

  /** The second loop: the quality bar, and the best of what it leaves out. */
  method Bar(s: Sieve, survivors: seq<Offer>, screened: seq<Rejection>)
      returns (rejected: seq<Rejection>, above: seq<Offer>, fallback: Option<Fallback>)
    requires OnceEach(screened) && AllJustified(screened, s)
    requires forall i :: 0 <= i < |survivors| ==> survivors[i] in s.offers && s.screen(survivors[i]).None?
    ensures above == Filter(survivors, Meets(s.chance, s.floor))
    ensures OnceEach(rejected) && AllJustified(rejected, s) && Extends(rejected, screened)
    ensures AllOut(survivors, |survivors|, Below(s.chance, s.floor), rejected)
    ensures above == [] ==> BestOf(fallback, s.chance, survivors)
  {
    rejected, above, fallback := screened, [], None;
    var i := 0;
    while i < |survivors|
      invariant 0 <= i <= |survivors| && OnceEach(rejected) && AllJustified(rejected, s) && Extends(rejected, screened)
      invariant above == Filter(survivors[..i], Meets(s.chance, s.floor))
      invariant AllOut(survivors, i, Below(s.chance, s.floor), rejected)
      invariant above == [] ==> BestOf(fallback, s.chance, survivors[..i])
    {
      var o := survivors[i];
      ghost var was := rejected;
      FilterNext(survivors, i, Meets(s.chance, s.floor));
      if s.chance(o) < s.floor {
        BelowIsJustified(s, o);
        rejected := Reject(rejected, o.id, BelowBar);
        if above == [] { BestNext(fallback, s.chance, survivors, i); }
        fallback := BetterOf(fallback, AsFallback(o, s.chance));
      } else {
        above := above + [o];
      }
      OneMoreOut(survivors, i, Below(s.chance, s.floor), was, rejected);
      i := i + 1;
    }
    assert survivors[..i] == survivors;
  }

  function BetterOf(f: Option<Fallback>, g: Fallback): Option<Fallback> {
    if f.None? || Better(g, f.value) then Some(g) else f
  }

  lemma BestNext(f: Option<Fallback>, chance: Offer -> real, survivors: seq<Offer>, i: nat)
    requires i < |survivors| && BestOf(f, chance, survivors[..i])
    ensures BestOf(BetterOf(f, AsFallback(survivors[i], chance)), chance, survivors[..i + 1])
  {
    TakeSnoc(survivors, i);
    BestGrows(f, chance, survivors[..i], survivors[i]);
  }

  lemma BestGrows(f: Option<Fallback>, chance: Offer -> real, below: seq<Offer>, o: Offer)
    requires BestOf(f, chance, below)
    ensures BestOf(BetterOf(f, AsFallback(o, chance)), chance, below + [o])
  {
    var all := below + [o];
    var g := BetterOf(f, AsFallback(o, chance));
    assert all[|below|] == o;
    NamesOrdered(o.id, o.id, o.id);
    forall i | 0 <= i < |all| ensures !Likelier(all[i], chance, g.value) {
      if i < |below| { NamesOrdered(all[i].id, g.value.id, f.value.id); }
    }
    if g == f && f.Some? {
      var i :| 0 <= i < |below| && AsFallback(below[i], chance) == f.value;
      assert all[i] == below[i];
    }
  }

  /** A verdict plan gave is the verdict of an offer above the bar, so it is also its reason. */
  lemma VerdictJustifies(s: Sieve, id: string)
    requires VerdictOf(s, id).Some? && !VerdictOf(s, id).value.Open? && !VerdictOf(s, id).value.Unpriced?
    ensures Justified(Rejection(id, Missed(VerdictOf(s, id).value)), s)
  {
    var above := Above(s);
    var v := VerdictOf(s, id).value;
    var i :| 0 <= i < |above| && above[i].id == id && Judged(above, s.judge)[i] == v;
    assert above[i] in above;
    AboveIs(s, above[i]);
    var k :| 0 <= k < |s.offers| && s.offers[k] == above[i];
    assert Reason(s, s.offers[k]) == Some(Missed(v));
  }

  ghost predicate AllStand(ranked: seq<Standing>, s: Sieve) {
    forall i :: 0 <= i < |ranked| ==> Stands(ranked[i], s)
  }

  /** The third loop: what plan said of each option above the bar. */
  method Standings(s: Sieve, above: seq<Offer>, verdicts: seq<Verdict>, barred: seq<Rejection>)
      returns (rejected: seq<Rejection>, ranked: seq<Standing>)
    requires above == Above(s) && verdicts == Judged(above, s.judge) && OnceEach(barred) && AllJustified(barred, s)
    ensures OnceEach(rejected) && AllJustified(rejected, s) && Extends(rejected, barred)
    ensures AllAccounted(above, |above|, rejected, ranked, s) && AllStand(ranked, s)
  {
    rejected, ranked := barred, [];
    var i := 0;
    while i < |above|
      invariant 0 <= i <= |above| && OnceEach(rejected) && AllJustified(rejected, s) && Extends(rejected, barred)
      invariant AllAccounted(above, i, rejected, ranked, s) && AllStand(ranked, s)
    {
      ghost var was, before := rejected, ranked;
      rejected, ranked := StandOne(s, above, i, VerdictIn(above, verdicts, above[i].id), rejected, ranked);
      AccountedStays(above, i, was, before, rejected, ranked, s);
      i := i + 1;
    }
  }

  /** One round of the third loop. */
  method StandOne(s: Sieve, above: seq<Offer>, i: nat, v: Option<Verdict>, was: seq<Rejection>, before: seq<Standing>)
      returns (rejected: seq<Rejection>, ranked: seq<Standing>)
    requires above == Above(s) && i < |above| && v == VerdictOf(s, above[i].id)
    requires OnceEach(was) && AllJustified(was, s) && AllStand(before, s)
    ensures OnceEach(rejected) && AllJustified(rejected, s) && AllStand(ranked, s)
    ensures Extends(rejected, was) && before <= ranked && Accounted(above[i].id, rejected, ranked, s)
  {
    var o := above[i];
    StandsIfOpen(s, i);
    rejected, ranked := was, before;
    if v.value.Open? {
      ranked := ranked + [StandingOf(o, s.chance(o), v.value.cost)];
      assert ranked[|before|].id == o.id;
    } else if !v.value.Unpriced? {
      VerdictJustifies(s, o.id);
      rejected := Reject(rejected, o.id, Missed(v.value));
    }
  }

  lemma StandsIfOpen(s: Sieve, i: nat)
    requires i < |Above(s)|
    ensures
      var o := Above(s)[i];
      var v := VerdictOf(s, o.id);
      v.Some? && (v.value.Open? ==> Stands(StandingOf(o, s.chance(o), v.value.cost), s))
  {
    var o := Above(s)[i];
    var v := VerdictOf(s, o.id);
    if v.Some? && v.value.Open? { assert IsStanding(StandingOf(o, s.chance(o), v.value.cost), s, Above(s)[i]); }
  }

  lemma AccountedStays(above: seq<Offer>, i: nat, was: seq<Rejection>, before: seq<Standing>,
                       rejected: seq<Rejection>, ranked: seq<Standing>, s: Sieve)
    requires i < |above| && AllAccounted(above, i, was, before, s) && Accounted(above[i].id, rejected, ranked, s)
    requires Extends(rejected, was) && before <= ranked
    ensures AllAccounted(above, i + 1, rejected, ranked, s)
  {
    forall j | 0 <= j < i + 1 ensures Accounted(above[j].id, rejected, ranked, s) {
      if j < i {
        assert Accounted(above[j].id, was, before, s);
        StillAccounted(above[j].id, was, before, rejected, ranked, s);
      }
    }
  }

  lemma StillAccounted(id: string, was: seq<Rejection>, before: seq<Standing>, rejected: seq<Rejection>,
      ranked: seq<Standing>, s: Sieve)
    requires Accounted(id, was, before, s) && Extends(rejected, was) && before <= ranked
    ensures Accounted(id, rejected, ranked, s)
  {
    if VerdictOf(s, id).value.Open? {
      var k :| 0 <= k < |before| && before[k].id == id;
      assert ranked[k].id == id;
    }
  }

  /** The three loops together, around the planner's verdicts on what is above the bar. */
  method SiftAll(s: Sieve)
    returns (rejected: seq<Rejection>, ranked: seq<Standing>, fallback: Option<Fallback>, above: seq<Offer>)
    ensures above == Above(s) && Sifted(rejected, ranked, fallback, s)
  {
    var survivors;
    rejected, survivors := Screen(s);
    ghost var screened := rejected;
    rejected, above, fallback := Bar(s, survivors, rejected);
    ghost var barred := rejected;
    rejected, ranked := Standings(s, above, Judged(above, s.judge), rejected);
    if above != [] { fallback := None; }
    forall i | 0 <= i < |s.offers| && !IsAbove(s, s.offers[i]) ensures HasId(rejected, s.offers[i].id) {
      if s.screen(s.offers[i]).Some? {
        assert HasId(screened, s.offers[i].id);
      } else {
        assert s.offers[i] in survivors;
      }
      assert HasId(barred, s.offers[i].id);
    }
  }

  /** What the loops promise of the ranked options does not depend on their order. */
  lemma SiftedInAnyOrder(rejected: seq<Rejection>, a: seq<Standing>, b: seq<Standing>, fallback: Option<Fallback>,
      s: Sieve)
    requires Sifted(rejected, a, fallback, s) && multiset(a) == multiset(b)
    ensures Sifted(rejected, b, fallback, s)
  {
    forall i | 0 <= i < |b| ensures Stands(b[i], s) {
      assert b[i] in multiset(b);
      assert b[i] in a;
    }
    forall i | 0 <= i < |Above(s)| ensures Accounted(Above(s)[i].id, rejected, b, s) {
      assert Accounted(Above(s)[i].id, rejected, a, s);
      if VerdictOf(s, Above(s)[i].id).value.Open? {
        var k :| 0 <= k < |a| && a[k].id == Above(s)[i].id;
        assert a[k] in multiset(a);
        assert a[k] in b;
      }
    }
  }

  // -- With one offer to an id ------------------------------------------------

  ghost predicate DistinctIds(offers: seq<Offer>) {
    forall i, j :: 0 <= i < j < |offers| ==> offers[i].id != offers[j].id
  }

  lemma SameOffer(offers: seq<Offer>, o: Offer, p: Offer)
    requires DistinctIds(offers) && o in offers && p in offers && o.id == p.id
    ensures o == p
  {
    var i :| 0 <= i < |offers| && offers[i] == o;
    var j :| 0 <= j < |offers| && offers[j] == p;
  }

  /** The verdict under an id is the offer's own. */
  lemma OwnVerdict(s: Sieve, o: Offer)
    requires DistinctIds(s.offers) && o in Above(s)
    ensures VerdictOf(s, o.id) == Some(s.judge(o))
  {
    var above := Above(s);
    var v := VerdictOf(s, o.id);
    var m :| 0 <= m < |above| && above[m] == o;
    var k :| 0 <= k < |above| && above[k].id == o.id && Judged(above, s.judge)[k] == v.value;
    AboveIs(s, o);
    AboveIs(s, above[k]);
    SameOffer(s.offers, o, above[k]);
  }

  /** Whoever is rejected has a reason of its own. */
  lemma RejectedMeans(rejected: seq<Rejection>, s: Sieve, o: Offer)
    requires AllJustified(rejected, s) && DistinctIds(s.offers) && o in s.offers && HasId(rejected, o.id)
    ensures Reason(s, o).Some?
  {
    var k :| 0 <= k < |rejected| && rejected[k].id == o.id;
    assert Justified(rejected[k], s);
    var j :| 0 <= j < |s.offers| && s.offers[j].id == o.id && Reason(s, s.offers[j]) == Some(rejected[k].why);
    SameOffer(s.offers, o, s.offers[j]);
  }

  /** Whoever is ranked is above the bar and competes. */
  lemma RankedMeans(ranked: seq<Standing>, s: Sieve, o: Offer, k: nat)
    requires AllStand(ranked, s) && DistinctIds(s.offers) && o in s.offers && k < |ranked| && ranked[k].id == o.id
    ensures IsAbove(s, o) && s.judge(o).Open?
  {
    assert Stands(ranked[k], s);
    var m :| 0 <= m < |Above(s)| && IsStanding(ranked[k], s, Above(s)[m]);
    AboveIs(s, Above(s)[m]);
    SameOffer(s.offers, o, Above(s)[m]);
    OwnVerdict(s, o);
  }

  /** Whoever is above the bar is ranked, unpriced or rejected, by its own verdict. */
  lemma AboveMeans(rejected: seq<Rejection>, ranked: seq<Standing>, s: Sieve, o: Offer)
    requires AllAccounted(Above(s), |Above(s)|, rejected, ranked, s)
    requires DistinctIds(s.offers) && o in s.offers && IsAbove(s, o)
    ensures if s.judge(o).Open? then exists k :: 0 <= k < |ranked| && ranked[k].id == o.id
            else s.judge(o).Unpriced? || HasId(rejected, o.id)
  {
    AboveIs(s, o);
    OwnVerdict(s, o);
    var m :| 0 <= m < |Above(s)| && Above(s)[m] == o;
    assert Accounted(Above(s)[m].id, rejected, ranked, s);
  }

  /** Nobody is unaccounted for: each offer is ranked, unpriced or rejected, and never two of them. */
  lemma EveryoneAccounted(rejected: seq<Rejection>, ranked: seq<Standing>, fallback: Option<Fallback>, s: Sieve,
      o: Offer)
    requires Sifted(rejected, ranked, fallback, s) && DistinctIds(s.offers) && o in s.offers
    ensures HasId(rejected, o.id) <==> Reason(s, o).Some?
    ensures (exists k :: 0 <= k < |ranked| && ranked[k].id == o.id) <==> IsAbove(s, o) && s.judge(o).Open?
  {
    if HasId(rejected, o.id) { RejectedMeans(rejected, s, o); }
    if exists k :: 0 <= k < |ranked| && ranked[k].id == o.id {
      var k :| 0 <= k < |ranked| && ranked[k].id == o.id;
      RankedMeans(ranked, s, o, k);
    }
    if IsAbove(s, o) {
      AboveMeans(rejected, ranked, s, o);
    } else {
      OutsideIsRejected(rejected, ranked, fallback, s, o);
    }
  }

  /** Whatever is not above the bar is rejected, under its id. */
  lemma OutsideIsRejected(rejected: seq<Rejection>, ranked: seq<Standing>, fallback: Option<Fallback>, s: Sieve,
      o: Offer)
    requires Sifted(rejected, ranked, fallback, s) && o in s.offers && !IsAbove(s, o)
    ensures HasId(rejected, o.id)
  {
    var i :| 0 <= i < |s.offers| && s.offers[i] == o;
  }
}
