/**
 * How many handlers one worker of the durable queue runs (src/queue.js): a blocked read asks for the places that are
 * free when it is sent, and so does each reclaim, while `active` counts a handler only once it runs.
 *
 * A step is one stretch of the worker's code; requests to Valkey may be answered late, in part and in any order.
 */
module QueueWorker {
  import opened Prelude

  /** Handlers at work, and what the requests under way may still bring: the read's count and the reclaims'. */
  datatype Worker = Worker(active: nat, asked: seq<nat>)

  const IDLE: Worker := Worker(0, [])

  /**
   * Ask is XREADGROUP or XAUTOCLAIM with its COUNT; Answer brings at most that many entries; Settle is a handler's
   * end.
   */
  datatype Step = Ask | Answer(request: nat, entries: nat) | Settle

  /** `concurrency` places, and at most `requests` requests under way at a time. */
  predicate Enabled(concurrency: nat, requests: nat, w: Worker, st: Step) {
    match st
    case Ask => w.active < concurrency && |w.asked| < requests
    case Answer(i, n) => i < |w.asked| && n <= w.asked[i]
    case Settle => w.active > 0
  }

  function Apply(concurrency: nat, requests: nat, w: Worker, st: Step): Worker
    requires Enabled(concurrency, requests, w, st)
  {
    match st
    case Ask => w.(asked := w.asked + [concurrency - w.active])
    case Answer(i, n) => Worker(w.active + n, w.asked[..i] + w.asked[i + 1..])
    case Settle => w.(active := w.active - 1)
  }

  ghost predicate Runs(concurrency: nat, requests: nat, w: Worker, steps: seq<Step>)
    decreases |steps|
  {
    steps == []
    || (Enabled(concurrency, requests, w, steps[0])
        && Runs(concurrency, requests, Apply(concurrency, requests, w, steps[0]), steps[1..]))
  }

  ghost function After(concurrency: nat, requests: nat, w: Worker, steps: seq<Step>): Worker
    requires Runs(concurrency, requests, w, steps)
    decreases |steps|
  {
    if steps == [] then w else After(concurrency, requests, Apply(concurrency, requests, w, steps[0]), steps[1..])
  }

  function Sum(asked: seq<nat>): nat
    decreases |asked|
  {
    if asked == [] then 0 else asked[0] + Sum(asked[1..])
  }

  lemma {:induction false} SumSplits(a: seq<nat>, b: seq<nat>)
    ensures Sum(a + b) == Sum(a) + Sum(b)
    decreases |a|
  {
    if a == [] {
      assert a + b == b;
    } else {
      assert (a + b)[1..] == a[1..] + b;
      SumSplits(a[1..], b);
    }
  }

  lemma SumWithout(asked: seq<nat>, i: nat)
    requires i < |asked|
    ensures Sum(asked) == Sum(asked[..i] + asked[i + 1..]) + asked[i]
  {
    assert asked == asked[..i] + ([asked[i]] + asked[i + 1..]);
    SumSplits(asked[..i], [asked[i]] + asked[i + 1..]);
    SumSplits([asked[i]], asked[i + 1..]);
    SumSplits(asked[..i], asked[i + 1..]);
    assert Sum([asked[i]]) == asked[i] by { assert [asked[i]][1..] == []; }
  }

  lemma {:induction false} SumAtMost(asked: seq<nat>, each: nat)
    requires forall i :: 0 <= i < |asked| ==> asked[i] <= each
    ensures Sum(asked) <= |asked| * each
    decreases |asked|
  {
    if asked != [] {
      SumAtMost(asked[1..], each);
      Distribute(|asked| - 1, each);
    }
  }

  lemma Distribute(n: nat, each: nat)
    ensures (n + 1) * each == n * each + each
  {
  }

  lemma Grows(m: nat, n: nat, each: nat)
    requires m <= n
    ensures m * each <= n * each
  {
    assert (n - m) * each >= 0;
  }

  /**
   * No request brings more than the places there are, and all of them together with the handlers at work stay in
   * bounds.
   */
  ghost predicate Bounded(concurrency: nat, requests: nat, w: Worker) {
    && |w.asked| <= requests && (forall i :: 0 <= i < |w.asked| ==> w.asked[i] <= concurrency)
    && w.active + Sum(w.asked) <= requests * concurrency
  }

  lemma StepBounded(concurrency: nat, requests: nat, w: Worker, st: Step)
    requires Enabled(concurrency, requests, w, st) && Bounded(concurrency, requests, w)
    ensures Bounded(concurrency, requests, Apply(concurrency, requests, w, st))
  {
    match st
    case Ask =>
      var free := concurrency - w.active;
      SumAtMost(w.asked, concurrency);
      SumSplits(w.asked, [free]);
      assert Sum([free]) == free by { assert [free][1..] == []; }
      Distribute(|w.asked|, concurrency);
      Grows(|w.asked| + 1, requests, concurrency);
    case Answer(i, n) =>
      SumWithout(w.asked, i);
    case Settle =>
  }

  lemma {:induction false} RunBounded(concurrency: nat, requests: nat, w: Worker, steps: seq<Step>)
    requires Runs(concurrency, requests, w, steps) && Bounded(concurrency, requests, w)
    ensures Bounded(concurrency, requests, After(concurrency, requests, w, steps))
    decreases |steps|
  {
    if steps != [] {
      StepBounded(concurrency, requests, w, steps[0]);
      RunBounded(concurrency, requests, Apply(concurrency, requests, w, steps[0]), steps[1..]);
    }
  }

  // -- The bound is reached ---------------------------------------------------

  function Times<T>(x: T, n: nat): (s: seq<T>)
    ensures |s| == n && forall i :: 0 <= i < n ==> s[i] == x
  {
    seq(n, _ => x)
  }

  lemma {:induction false} AskAll(concurrency: nat, requests: nat, n: nat, more: nat, rest: seq<Step>)
    requires concurrency > 0 && n + more <= requests
    requires Runs(concurrency, requests, Worker(0, Times(concurrency, n + more)), rest)
    ensures Runs(concurrency, requests, Worker(0, Times(concurrency, n)), Times(Ask, more) + rest)
    ensures
      After(concurrency, requests, Worker(0, Times(concurrency, n)), Times(Ask, more) + rest)
      == After(concurrency, requests, Worker(0, Times(concurrency, n + more)), rest)
    decreases more
  {
    var steps := Times(Ask, more) + rest;
    if more == 0 {
      assert steps == rest;
    } else {
      assert steps[0] == Ask && steps[1..] == Times(Ask, more - 1) + rest;
      assert Times(concurrency, n) + [concurrency] == Times(concurrency, n + 1);
      AskAll(concurrency, requests, n + 1, more - 1, rest);
    }
  }

  lemma {:induction false} AnswerAll(concurrency: nat, requests: nat, active: nat, n: nat)
    ensures
      var steps := Times(Answer(0, concurrency), n);
      var s := Worker(active, Times(concurrency, n));
      Runs(concurrency, requests, s, steps)
      && After(concurrency, requests, s, steps) == Worker(active + n * concurrency, [])
    decreases n
  {
    var (w, steps) := (Worker(active, Times(concurrency, n)), Times(Answer(0, concurrency), n));
    if n == 0 {
      assert w.asked == [];
    } else {
      assert steps[1..] == Times(Answer(0, concurrency), n - 1);
      assert w.asked[..0] + w.asked[0 + 1..] == Times(concurrency, n - 1);
      AnswerAll(concurrency, requests, active + concurrency, n - 1);
      Distribute(n - 1, concurrency);
    }
  }

  /** All requests are sent while the worker is idle, and every one comes back full. */
  function Burst(concurrency: nat, requests: nat): seq<Step> {
    Times(Ask, requests) + Times(Answer(0, concurrency), requests)
  }

  lemma BurstReaches(concurrency: nat, requests: nat)
    requires concurrency > 0
    ensures Runs(concurrency, requests, IDLE, Burst(concurrency, requests))
    ensures After(concurrency, requests, IDLE, Burst(concurrency, requests)).active == requests * concurrency
  {
    assert Times(concurrency, 0) == [];
    AnswerAll(concurrency, requests, 0, requests);
    AskAll(concurrency, requests, 0, requests, Times(Answer(0, concurrency), requests));
  }

  /** On no run are more handlers at work. */
  ghost predicate NeverMore(concurrency: nat, requests: nat, bound: nat) {
    forall steps :: Runs(concurrency, requests, IDLE, steps) ==>
      After(concurrency, requests, IDLE, steps).active <= bound
  }

  /**
   * How many handlers a worker can run, exactly: its concurrency once for each request that can be under way at a time.
   * So concurrency is kept on every run exactly when reads and reclaims never overlap.
   */
  lemma ActiveIff(concurrency: nat, requests: nat, bound: nat)
    requires concurrency > 0
    ensures NeverMore(concurrency, requests, bound) <==> bound >= requests * concurrency
    ensures NeverMore(concurrency, requests, concurrency) <==> requests <= 1
  {
    MoreIff(concurrency, requests, bound);
    MoreIff(concurrency, requests, concurrency);
    if requests <= 1 {
      Grows(requests, 1, concurrency);
    } else {
      Grows(2, requests, concurrency);
    }
  }

  lemma MoreIff(concurrency: nat, requests: nat, bound: nat)
    requires concurrency > 0
    ensures NeverMore(concurrency, requests, bound) <==> bound >= requests * concurrency
  {
    if bound >= requests * concurrency {
      forall steps | Runs(concurrency, requests, IDLE, steps)
        ensures After(concurrency, requests, IDLE, steps).active <= bound
      {
        RunBounded(concurrency, requests, IDLE, steps);
      }
    } else {
      BurstReaches(concurrency, requests);
    }
  }
}
