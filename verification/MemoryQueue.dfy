/**
 * The in-process queue (src/queue.js, memoryQueue): a list of ready jobs, timers for delayed jobs and retries, and
 * workers that pump the list up to their concurrency. The object is updated in place by every call, every timer and
 * every handler that settles.
 */
module MemoryQueue {
  import opened Prelude

  datatype Job = Job(id: nat, attempt: nat, max: nat)

  /** One worker: how many handlers run, how many may, and its counters. */
  datatype Worker = Worker(active: nat, concurrency: nat, stopped: bool, done: nat, failed: nat, retried: nat,
      dead: nat)

  /** A handler at work. */
  datatype Running = Running(worker: nat, job: Job)

  function JobsOf(rs: seq<Running>): (js: seq<Job>)
    ensures |js| == |rs|
    ensures forall i :: 0 <= i < |rs| ==> js[i] == rs[i].job
  {
    seq(|rs|, i requires 0 <= i < |rs| => rs[i].job)
  }

  /** How often an id occurs. */
  function Times(js: seq<Job>, id: nat): nat {
    if js == [] then 0 else Times(js[..|js| - 1], id) + (if js[|js| - 1].id == id then 1 else 0)
  }

  /** How many handlers a worker runs. */
  function CountOf(rs: seq<Running>, w: nat): nat {
    if rs == [] then 0 else CountOf(rs[..|rs| - 1], w) + (if rs[|rs| - 1].worker == w then 1 else 0)
  }

  function Without<T>(s: seq<T>, i: nat): (r: seq<T>)
    requires i < |s|
    ensures |r| == |s| - 1
    ensures forall k :: 0 <= k < |r| ==> r[k] == if k < i then s[k] else s[k + 1]
  {
    s[..i] + s[i + 1..]
  }

  lemma {:induction false} TimesAppend(a: seq<Job>, b: seq<Job>, id: nat)
    ensures Times(a + b, id) == Times(a, id) + Times(b, id)
  {
    if b == [] {
      assert a + b == a;
    } else {
      var n := |b| - 1;
      assert (a + b)[..|a + b| - 1] == a + b[..n];
      TimesAppend(a, b[..n], id);
    }
  }

  lemma TimesSnoc(a: seq<Job>, j: Job, id: nat)
    ensures Times(a + [j], id) == Times(a, id) + (if j.id == id then 1 else 0)
  {
    assert (a + [j])[..|a|] == a;
  }

  lemma TimesWithout(s: seq<Job>, i: nat, id: nat)
    requires i < |s|
    ensures Times(s, id) == Times(Without(s, i), id) + (if s[i].id == id then 1 else 0)
  {
    var (a, b) := (s[..i], s[i + 1..]);
    assert s == (a + [s[i]]) + b;
    TimesAppend(a + [s[i]], b, id);
    TimesSnoc(a, s[i], id);
    TimesAppend(a, b, id);
  }

  lemma {:induction false} CountAppend(a: seq<Running>, b: seq<Running>, w: nat)
    ensures CountOf(a + b, w) == CountOf(a, w) + CountOf(b, w)
  {
    if b == [] {
      assert a + b == a;
    } else {
      var n := |b| - 1;
      assert (a + b)[..|a + b| - 1] == a + b[..n];
      CountAppend(a, b[..n], w);
    }
  }

  lemma CountSnoc(a: seq<Running>, r: Running, w: nat)
    ensures CountOf(a + [r], w) == CountOf(a, w) + (if r.worker == w then 1 else 0)
  {
    assert (a + [r])[..|a|] == a;
  }

  lemma CountWithout(s: seq<Running>, i: nat, w: nat)
    requires i < |s|
    ensures CountOf(s, w) == CountOf(Without(s, i), w) + (if s[i].worker == w then 1 else 0)
  {
    var (a, b) := (s[..i], s[i + 1..]);
    assert s == (a + [s[i]]) + b;
    CountAppend(a + [s[i]], b, w);
    CountSnoc(a, s[i], w);
    CountAppend(a, b, w);
  }

  // -- The state, as a value --------------------------------------------------

  /** `done` are the jobs whose handler succeeded; `issued` how many ids were handed out. */
  datatype State = State(ready: seq<Job>, timers: seq<Job>, running: seq<Running>, dead: seq<Job>, done: seq<Job>,
                         workers: seq<Worker>, issued: nat)

  function Places(s: State, id: nat): nat {
    Times(s.ready, id) + Times(s.timers, id) + Times(JobsOf(s.running), id) + Times(s.dead, id) + Times(s.done, id)
  }

  /** Every id handed out is in exactly one place, and no other id anywhere. */
  ghost predicate Ledger(s: State) { forall id: nat :: Places(s, id) == if 1 <= id <= s.issued then 1 else 0 }

  /** Each worker runs as many handlers as it counts, never more than it may; its failures were retried or went dead. */
  ghost predicate Counts(s: State) {
    && (forall i :: 0 <= i < |s.running| ==> s.running[i].worker < |s.workers|)
    && (forall w :: 0 <= w < |s.workers| ==> WorkerCounts(s, w))
  }

  ghost predicate WorkerCounts(s: State, w: nat)
    requires w < |s.workers|
  {
    var k := s.workers[w];
    k.active == CountOf(s.running, w) && k.active <= k.concurrency && k.failed == k.retried + k.dead
  }

  ghost predicate OnTry(j: Job) { 1 <= j.attempt <= j.max }

  /** Every job is on a try from 1 to its maximum; a dead one is on its last. */
  ghost predicate Tries(s: State) {
    && (forall i :: 0 <= i < |s.ready| ==> OnTry(s.ready[i]))
    && (forall i :: 0 <= i < |s.timers| ==> OnTry(s.timers[i]))
    && (forall i :: 0 <= i < |s.running| ==> OnTry(s.running[i].job))
    && (forall i :: 0 <= i < |s.done| ==> OnTry(s.done[i]))
    && (forall i :: 0 <= i < |s.dead| ==> s.dead[i].attempt == s.dead[i].max)
  }

  ghost predicate Inv(s: State) { Ledger(s) && Counts(s) && Tries(s) }

  predicate Full(s: State, w: nat)
    requires w < |s.workers|
  {
    s.workers[w].stopped || s.workers[w].active >= s.workers[w].concurrency
  }

  /** No ready job waits while a worker that is not stopped has room. */
  ghost predicate Busy(s: State) { s.ready != [] ==> forall w :: 0 <= w < |s.workers| ==> Full(s, w) }

  /** One ready job to a worker. */
  function Take(s: State, w: nat): State
    requires w < |s.workers| && s.ready != []
  {
    s.(ready := s.ready[1..], running := s.running + [Running(w, s.ready[0])],
       workers := s.workers[w := s.workers[w].(active := s.workers[w].active + 1)])
  }

  function Pump(s: State, w: nat): State
    requires w < |s.workers|
    decreases |s.ready|
  {
    if Full(s, w) || s.ready == [] then s else Pump(Take(s, w), w)
  }

  /** Pump every worker from w on, in the order they were made. */
  function Kick(s: State, w: nat): (t: State)
    requires w <= |s.workers|
    decreases |s.workers| - w
  {
    if w == |s.workers| then s
    else
      PumpKeepsWorkers(s, w);
      Kick(Pump(s, w), w + 1)
  }

  lemma PumpKeepsWorkers(s: State, w: nat)
    requires w < |s.workers|
    ensures |Pump(s, w).workers| == |s.workers|
    decreases |s.ready|
  {
    if !Full(s, w) && s.ready != [] { PumpKeepsWorkers(Take(s, w), w); }
  }

  function Added(s: State, max: nat, delayed: bool): State {
    var j := Job(s.issued + 1, 1, max);
    var t := s.(issued := s.issued + 1);
    if delayed then t.(timers := t.timers + [j]) else Kick(t.(ready := t.ready + [j]), 0)
  }

  function Fired(s: State, i: nat): State
    requires i < |s.timers|
  {
    Kick(s.(timers := Without(s.timers, i), ready := s.ready + [s.timers[i]]), 0)
  }

  /** A handler's settling, before its worker pumps again. */
  function Settled(s: State, i: nat, ok: bool): State
    requires i < |s.running| && s.running[i].worker < |s.workers|
  {
    var (w, j) := (s.running[i].worker, s.running[i].job);
    var k := s.workers[w];
    var active := if k.active > 0 then k.active - 1 else 0;
    var t := s.(running := Without(s.running, i));
    if ok then t.(done := t.done + [j], workers := t.workers[w := k.(active := active, done := k.done + 1)])
    else if j.attempt >= j.max then
      t.(dead := t.dead + [j], workers := t.workers[w := k.(active := active, failed := k.failed + 1,
          dead := k.dead + 1)])
    else
      t.(timers := t.timers + [j.(attempt := j.attempt + 1)],
         workers := t.workers[w := k.(active := active, failed := k.failed + 1, retried := k.retried + 1)])
  }

  function AddWorker(s: State, concurrency: nat): State {
    Pump(s.(workers := s.workers + [Worker(0, concurrency, false, 0, 0, 0, 0)]), |s.workers|)
  }

  // -- What every operation keeps ---------------------------------------------

  lemma TakeKeeps(s: State, w: nat)
    requires Inv(s) && w < |s.workers| && s.ready != [] && !Full(s, w)
    ensures Inv(Take(s, w))
  {
    var t := Take(s, w);
    var r := Running(w, s.ready[0]);
    forall id: nat ensures Places(t, id) == Places(s, id) {
      TimesWithout(s.ready, 0, id);
      assert Without(s.ready, 0) == s.ready[1..];
      assert JobsOf(t.running) == JobsOf(s.running) + [s.ready[0]];
      TimesSnoc(JobsOf(s.running), s.ready[0], id);
    }
    forall v | 0 <= v < |t.workers| ensures WorkerCounts(t, v) {
      assert WorkerCounts(s, v);
      CountSnoc(s.running, r, v);
    }
  }

  lemma {:induction false} PumpKeeps(s: State, w: nat)
    requires Inv(s) && w < |s.workers|
    ensures var t := Pump(s, w);
            && Inv(t) && |t.workers| == |s.workers| && (t.ready == [] || Full(t, w))
            && (forall v :: 0 <= v < |s.workers| && v != w ==> t.workers[v] == s.workers[v])
            && t.timers == s.timers && t.dead == s.dead && t.done == s.done && t.issued == s.issued
            && (s.ready == [] ==> t == s)
    decreases |s.ready|
  {
    if !Full(s, w) && s.ready != [] {
      TakeKeeps(s, w);
      PumpKeeps(Take(s, w), w);
    }
  }

  lemma {:induction false} KickKeeps(s: State, w: nat)
    requires Inv(s) && w <= |s.workers|
    requires s.ready == [] || forall v :: 0 <= v < w ==> Full(s, v)
    ensures var t := Kick(s, w); Inv(t) && Busy(t) && |t.workers| == |s.workers| && t.issued == s.issued
    decreases |s.workers| - w
  {
    if w < |s.workers| {
      PumpKeeps(s, w);
      var t := Pump(s, w);
      forall v | t.ready != [] && 0 <= v < w + 1 ensures Full(t, v) {
        if v < w { assert Full(s, v); }
      }
      KickKeeps(t, w + 1);
    }
  }

  lemma PlacedNew(s: State, u: State, j: Job)
    requires Inv(s) && OnTry(j) && j.id == s.issued + 1
    requires u == s.(issued := j.id, timers := s.timers + [j]) || u == s.(issued := j.id, ready := s.ready + [j])
    ensures Inv(u)
  {
    forall id: nat ensures Places(u, id) == Places(s, id) + (if id == j.id then 1 else 0) {
      TimesSnoc(s.timers, j, id);
      TimesSnoc(s.ready, j, id);
    }
    forall v | 0 <= v < |u.workers| ensures WorkerCounts(u, v) { assert WorkerCounts(s, v); }
  }

  lemma AddKeeps(s: State, max: nat, delayed: bool)
    requires Inv(s) && Busy(s) && max >= 1
    ensures Inv(Added(s, max, delayed)) && Busy(Added(s, max, delayed))
  {
    var j := Job(s.issued + 1, 1, max);
    if delayed {
      var u := s.(issued := j.id, timers := s.timers + [j]);
      PlacedNew(s, u, j);
      forall v | u.ready != [] && 0 <= v < |u.workers| ensures Full(u, v) { assert Full(s, v); }
    } else {
      var u := s.(issued := j.id, ready := s.ready + [j]);
      PlacedNew(s, u, j);
      KickKeeps(u, 0);
    }
  }

  lemma FireKeeps(s: State, i: nat)
    requires Inv(s) && i < |s.timers|
    ensures Inv(Fired(s, i)) && Busy(Fired(s, i))
  {
    var u := s.(timers := Without(s.timers, i), ready := s.ready + [s.timers[i]]);
    forall id: nat ensures Places(u, id) == Places(s, id) {
      TimesWithout(s.timers, i, id);
      TimesSnoc(s.ready, s.timers[i], id);
    }
    forall v | 0 <= v < |u.workers| ensures WorkerCounts(u, v) { assert WorkerCounts(s, v); }
    KickKeeps(u, 0);
  }

  lemma SettleLedger(s: State, i: nat, ok: bool)
    requires Inv(s) && i < |s.running|
    ensures Ledger(Settled(s, i, ok))
  {
    var u := Settled(s, i, ok);
    forall id: nat ensures Places(u, id) == Places(s, id) {
      SettlePlaces(s, i, ok, id);
    }
  }

  /** The job leaves the running handlers for exactly one other place. */
  lemma SettlePlaces(s: State, i: nat, ok: bool, id: nat)
    requires i < |s.running| && s.running[i].worker < |s.workers|
    ensures Places(Settled(s, i, ok), id) == Places(s, id)
  {
    var (u, j) := (Settled(s, i, ok), s.running[i].job);
    RunningWithout(s.running, i, id);
    assert u.ready == s.ready && u.running == Without(s.running, i);
    if ok {
      TimesSnoc(s.done, j, id);
    } else if j.attempt >= j.max {
      TimesSnoc(s.dead, j, id);
    } else {
      TimesSnoc(s.timers, j.(attempt := j.attempt + 1), id);
    }
  }

  lemma RunningWithout(rs: seq<Running>, i: nat, id: nat)
    requires i < |rs|
    ensures Times(JobsOf(rs), id) == Times(JobsOf(Without(rs, i)), id) + (if rs[i].job.id == id then 1 else 0)
  {
    assert JobsOf(Without(rs, i)) == Without(JobsOf(rs), i);
    TimesWithout(JobsOf(rs), i, id);
  }

  lemma SettleCounts(s: State, i: nat, ok: bool)
    requires Inv(s) && i < |s.running|
    ensures Counts(Settled(s, i, ok))
  {
    var u, w := Settled(s, i, ok), s.running[i].worker;
    forall v | 0 <= v < |u.workers| ensures WorkerCounts(u, v) {
      assert WorkerCounts(s, v);
      CountWithout(s.running, i, v);
    }
  }

  /** The worker of a running handler counts it. */
  lemma HasActive(s: State, i: nat)
    requires Counts(s) && i < |s.running|
    ensures s.running[i].worker < |s.workers| && s.workers[s.running[i].worker].active >= 1
  {
    assert WorkerCounts(s, s.running[i].worker);
    CountWithout(s.running, i, s.running[i].worker);
  }

  lemma SettleKeeps(s: State, i: nat, ok: bool)
    requires Inv(s) && Busy(s) && i < |s.running|
    ensures var t := Pump(Settled(s, i, ok), s.running[i].worker); Inv(t) && Busy(t)
  {
    var u, w := Settled(s, i, ok), s.running[i].worker;
    SettleLedger(s, i, ok);
    SettleCounts(s, i, ok);
    assert Tries(u);
    PumpKeeps(u, w);
    var t := Pump(u, w);
    forall v | t.ready != [] && 0 <= v < |t.workers| ensures Full(t, v) {
      if v != w { assert Full(s, v); }
    }
  }

  lemma WorkerKeeps(s: State, concurrency: nat)
    requires Inv(s) && Busy(s)
    ensures Inv(AddWorker(s, concurrency)) && Busy(AddWorker(s, concurrency))
  {
    var u := s.(workers := s.workers + [Worker(0, concurrency, false, 0, 0, 0, 0)]);
    NoneRunning(s.running, |s.workers|);
    forall id: nat ensures Places(u, id) == Places(s, id) {}
    forall v | 0 <= v < |u.workers| ensures WorkerCounts(u, v) {
      if v < |s.workers| { assert WorkerCounts(s, v); }
    }
    PumpKeeps(u, |s.workers|);
    var t := AddWorker(s, concurrency);
    forall v | t.ready != [] && 0 <= v < |t.workers| ensures Full(t, v) {
      if v < |s.workers| { assert Full(s, v); }
    }
  }

  lemma {:induction false} NoneRunning(rs: seq<Running>, w: nat)
    requires forall i :: 0 <= i < |rs| ==> rs[i].worker < w
    ensures CountOf(rs, w) == 0
  {
    if rs != [] { NoneRunning(rs[..|rs| - 1], w); }
  }

  // -- The object -------------------------------------------------------------

  class Queue {
    var ready: seq<Job>
    var timers: seq<Job>
    var running: seq<Running>
    var dead: seq<Job>
    var done: seq<Job>
    var workers: seq<Worker>
    var issued: nat

    ghost function View(): State
      reads this
    {
      State(ready, timers, running, dead, done, workers, issued)
    }

    constructor ()
      ensures View() == State([], [], [], [], [], [], 0) && Inv(View()) && Busy(View())
    {
      ready, timers, running, dead, done, workers, issued := [], [], [], [], [], [], 0;
    }

    /** while (!stopped && active < concurrency && ready.length): shift a job and start its handler. */
    method PumpWorker(w: nat)
      requires w < |workers|
      modifies this
      ensures View() == Pump(old(View()), w)
    {
      while !workers[w].stopped && workers[w].active < workers[w].concurrency && ready != []
        invariant w < |workers|
        invariant Pump(View(), w) == Pump(old(View()), w)
        decreases |ready|
      {
        var job := ready[0];
        ready := ready[1..];
        workers := workers[w := workers[w].(active := workers[w].active + 1)];
        running := running + [Running(w, job)];
      }
    }

    method KickAll()
      modifies this
      ensures View() == Kick(old(View()), 0)
    {
      var w := 0;
      while w < |workers|
        invariant 0 <= w <= |workers| && |workers| == |old(workers)|
        invariant Kick(View(), w) == Kick(old(View()), 0)
      {
        PumpKeepsWorkers(View(), w);
        PumpWorker(w);
        w := w + 1;
      }
    }

    /** Accept a job: its id is one more than the last; a delayed job waits for its timer. */
    method Add(max: nat, delayMs: int) returns (id: nat)
      requires Inv(View()) && Busy(View()) && max >= 1
      modifies this
      ensures id == issued && View() == Added(old(View()), max, delayMs > 0)
      ensures Inv(View()) && Busy(View())
    {
      AddKeeps(View(), max, delayMs > 0);
      issued := issued + 1;
      id := issued;
      if delayMs > 0 {
        timers := timers + [Job(id, 1, max)];
      } else {
        ready := ready + [Job(id, 1, max)];
        KickAll();
        KickKeepsIssued(old(View()).(issued := id, ready := old(ready) + [Job(id, 1, max)]), 0);
      }
    }

    /** A timer fires: its job is ready again and every worker is pumped. */
    method Fire(i: nat)
      requires Inv(View()) && Busy(View()) && i < |timers|
      modifies this
      ensures View() == Fired(old(View()), i)
      ensures Inv(View()) && Busy(View())
    {
      FireKeeps(View(), i);
      ready := ready + [timers[i]];
      timers := timers[..i] + timers[i + 1..];
      KickAll();
    }

    /** A handler settles: done, dead after its last try, or a timer for the next one; then its worker pumps again. */
    method Settle(i: nat, ok: bool)
      requires Inv(View()) && Busy(View()) && i < |running|
      modifies this
      ensures View() == Pump(Settled(old(View()), i, ok), old(running)[i].worker)
      ensures Inv(View()) && Busy(View())
    {
      SettleKeeps(View(), i, ok);
      HasActive(View(), i);
      var w, job := running[i].worker, running[i].job;
      var k := workers[w];
      running := running[..i] + running[i + 1..];
      if ok {
        k := k.(done := k.done + 1);
        done := done + [job];
      } else {
        k := k.(failed := k.failed + 1);
        if job.attempt >= job.max {
          k := k.(dead := k.dead + 1);
          dead := dead + [job];
        } else {
          k := k.(retried := k.retried + 1);
          timers := timers + [job.(attempt := job.attempt + 1)];
        }
      }
      workers := workers[w := k.(active := k.active - 1)];
      PumpWorker(w);
    }

    /** process(): a new worker, pumped at once. */
    method Process(concurrency: nat) returns (w: nat)
      requires Inv(View()) && Busy(View())
      modifies this
      ensures w == |old(workers)| && View() == AddWorker(old(View()), concurrency)
      ensures Inv(View()) && Busy(View())
    {
      WorkerKeeps(View(), concurrency);
      w := |workers|;
      workers := workers + [Worker(0, concurrency, false, 0, 0, 0, 0)];
      PumpWorker(w);
    }

    /** stop(): the worker starts nothing more; what it runs still settles. */
    method Stop(w: nat)
      requires Inv(View()) && Busy(View()) && w < |workers|
      modifies this`workers
      ensures workers == old(workers)[w := old(workers)[w].(stopped := true)]
      ensures Inv(View()) && Busy(View())
    {
      ghost var before := View();
      workers := workers[w := workers[w].(stopped := true)];
      forall id: nat ensures Places(View(), id) == Places(before, id) {}
      forall v | 0 <= v < |workers| ensures WorkerCounts(View(), v) { assert WorkerCounts(before, v); }
      forall v | ready != [] && 0 <= v < |workers| ensures Full(View(), v) { assert Full(before, v); }
    }
  }

  lemma {:induction false} KickKeepsIssued(s: State, w: nat)
    requires w <= |s.workers|
    ensures Kick(s, w).issued == s.issued
    decreases |s.workers| - w
  {
    if w < |s.workers| {
      PumpKeepsWorkers(s, w);
      PumpKeepsIssued(s, w);
      KickKeepsIssued(Pump(s, w), w + 1);
    }
  }

  lemma {:induction false} PumpKeepsIssued(s: State, w: nat)
    requires w < |s.workers|
    ensures Pump(s, w).issued == s.issued
    decreases |s.ready|
  {
    if !Full(s, w) && s.ready != [] { PumpKeepsIssued(Take(s, w), w); }
  }
}
