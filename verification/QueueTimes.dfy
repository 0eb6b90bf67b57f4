/**
 * When the durable queue lets a job be worked on (src/queue.js): not before its delay is over, and after a failure not
 * before the wait for that try, on every run and whatever workers do in between.
 */
module QueueTimes {
  import opened Prelude
  import opened Queue

  /** One second after the first try, twice as long after each further one, never more than five minutes. */
  lemma WaitIs(attempt: nat)
    requires attempt >= 1
    ensures Backoff(1) == 1000
    ensures Backoff(attempt + 1) == if 2 * Backoff(attempt) < 300000 then 2 * Backoff(attempt) else 300000
  {
    assert Pow2(0) == 1 && Pow2(attempt) == 2 * Pow2(attempt - 1);
  }

  /**
   * No try of the job after the given one is in the stream or at work, and those that are delayed are not due before
   * `until`.
   */
  ghost predicate HeldBack(s: State, job: nat, attempt: nat, until: int) {
    && (forall id :: id in s.stream && s.stream[id].job == job ==> s.stream[id].attempt <= attempt)
    && (forall r :: r in s.runs && s.runs[r].e.job == job ==> s.runs[r].e.attempt <= attempt)
    && (forall m :: m in s.delayed && s.delayed[m].e.job == job && s.delayed[m].e.attempt > attempt ==>
      s.delayed[m].due >= until)
  }

  lemma StepHolds(v: int, s: State, st: Step, job: nat, attempt: nat, until: int)
    requires Enabled(v, s, st) && HeldBack(s, job, attempt, until) && job in s.accepted && s.time < until
    requires attempt >= 1 ==> until <= s.time + Backoff(attempt)
    ensures HeldBack(Apply(v, s, st), job, attempt, until)
  {
    var t := Apply(v, s, st);
    if st.Fail? {
      FailHolds(v, s, st.run, job, attempt, until);
    } else {
      assert forall m :: m in t.delayed && m !in s.delayed ==> st.Add? && t.delayed[m].e.job == st.job;
    }
  }

  lemma FailHolds(v: int, s: State, r: nat, job: nat, attempt: nat, until: int)
    requires Enabled(v, s, Fail(r)) && HeldBack(s, job, attempt, until)
    requires attempt >= 1 ==> until <= s.time + Backoff(attempt)
    ensures HeldBack(Apply(v, s, Fail(r)), job, attempt, until)
  {
  }

  /** Nobody works on a later try of the job while it is held back. */
  lemma {:induction false} RunHolds(v: int, s: State, steps: seq<Step>, job: nat, attempt: nat, until: int)
    requires Runs(v, s, steps) && HeldBack(s, job, attempt, until) && job in s.accepted
    requires After(v, s, steps).time < until
    requires attempt >= 1 ==> until <= s.time + Backoff(attempt)
    ensures HeldBack(After(v, s, steps), job, attempt, until)
    decreases |steps|
  {
    if steps != [] {
      var next := Apply(v, s, steps[0]);
      TimeOnlyGrows(v, next, steps[1..]);
      assert next.time >= s.time && job in next.accepted;
      StepHolds(v, s, steps[0], job, attempt, until);
      RunHolds(v, next, steps[1..], job, attempt, until);
    }
  }

  lemma {:induction false} TimeOnlyGrows(v: int, s: State, steps: seq<Step>)
    requires Runs(v, s, steps)
    ensures After(v, s, steps).time >= s.time
    decreases |steps|
  {
    if steps != [] { TimeOnlyGrows(v, Apply(v, s, steps[0]), steps[1..]); }
  }

  /** The job is in the stream or at work, on a try after the given one. */
  ghost predicate AtWork(s: State, job: nat, attempt: nat) {
    || (exists id :: id in s.stream && s.stream[id].job == job && s.stream[id].attempt > attempt)
    || (exists r :: r in s.runs && s.runs[r].e.job == job && s.runs[r].e.attempt > attempt)
  }

  /**
   * A failed job waits: if no later try of it exists when a try fails, none is in the stream or at work before the wait
   * for that try is over.
   */
  lemma NextTryWaits(v: int, s: State, r: nat, rest: seq<Step>)
    requires Enabled(v, s, Fail(r)) && s.runs[r].e.job in s.accepted
    requires HeldBack(s, s.runs[r].e.job, s.runs[r].e.attempt, s.time + Backoff(s.runs[r].e.attempt))
    requires Runs(v, Apply(v, s, Fail(r)), rest)
    requires After(v, Apply(v, s, Fail(r)), rest).time < s.time + Backoff(s.runs[r].e.attempt)
    ensures !AtWork(After(v, Apply(v, s, Fail(r)), rest), s.runs[r].e.job, s.runs[r].e.attempt)
  {
    var (e, next) := (s.runs[r].e, Apply(v, s, Fail(r)));
    var until := s.time + Backoff(e.attempt);
    StepHolds(v, s, Fail(r), e.job, e.attempt, until);
    RunHolds(v, next, rest, e.job, e.attempt, until);
  }

  /** Whatever the queue holds was accepted. */
  ghost predicate Known(s: State) {
    && (forall id :: id in s.stream ==> s.stream[id].job in s.accepted)
    && (forall m :: m in s.delayed ==> s.delayed[m].e.job in s.accepted)
    && (forall r :: r in s.runs ==> s.runs[r].e.job in s.accepted)
  }

  lemma {:induction false} KnownOverRun(v: int, s: State, steps: seq<Step>)
    requires Runs(v, s, steps) && Known(s)
    ensures Known(After(v, s, steps))
    decreases |steps|
  {
    if steps != [] {
      KnownKept(v, s, steps[0]);
      KnownOverRun(v, Apply(v, s, steps[0]), steps[1..]);
    }
  }

  lemma KnownKept(v: int, s: State, st: Step)
    requires Enabled(v, s, st) && Known(s)
    ensures Known(Apply(v, s, st))
  {
    if st.Add? {
    } else if st.Fail? {
    } else {
    }
  }

  /** A delayed job waits: on every run it is neither in the stream nor at work before its delay is over. */
  lemma DelayIsKept(v: int, steps: seq<Step>, job: nat, max: nat, delayMs: nat, rest: seq<Step>)
    requires Runs(v, EMPTY, steps) && Enabled(v, After(v, EMPTY, steps), Add(job, max, delayMs))
    requires Runs(v, Apply(v, After(v, EMPTY, steps), Add(job, max, delayMs)), rest)
    requires After(v, Apply(v, After(v, EMPTY, steps), Add(job, max, delayMs)), rest).time
             < After(v, EMPTY, steps).time + delayMs
    ensures !AtWork(After(v, Apply(v, After(v, EMPTY, steps), Add(job, max, delayMs)), rest), job, 0)
  {
    var s := After(v, EMPTY, steps);
    var next := Apply(v, s, Add(job, max, delayMs));
    KnownOverRun(v, EMPTY, steps);
    TimeOnlyGrows(v, next, rest);
    assert delayMs > 0;
    RunHolds(v, next, rest, job, 0, s.time + delayMs);
  }

  /** A job that nobody added yet may be added at any moment; without a delay it waits in the stream for its first try. */
  lemma AddedAtOnce(v: int, s: State, job: nat, max: nat)
    requires job !in s.accepted && max >= 1
    ensures Enabled(v, s, Add(job, max, 0))
    ensures Apply(v, s, Add(job, max, 0)).stream == s.stream[s.nextEntry := Entry(job, 1, max)]
  {
  }

  /** And once it is due it may be moved to the stream, where nobody is at work on it yet. */
  lemma DueIsMoved(v: int, s: State, m: nat)
    requires m in s.delayed && s.delayed[m].due <= s.time
    ensures Enabled(v, s, Promote(m)) && m !in Apply(v, s, Promote(m)).delayed
    ensures Apply(v, s, Promote(m)).stream == s.stream[s.nextEntry := s.delayed[m].e]
    ensures Apply(v, s, Promote(m)).runs == s.runs
  {
  }

  // -- Nothing gets stuck -----------------------------------------------------

  /** A worker may die at any moment: its entry stays in the stream, and stays pending. */
  lemma DeathLosesNothing(v: int, s: State, r: nat)
    requires r in s.runs
    ensures Enabled(v, s, Lose(r)) && Apply(v, s, Lose(r)) == s.(runs := s.runs - {r})
  {
  }

  /** An entry that somebody took is taken over exactly when that was visibilityMs ago. */
  lemma ReclaimIff(v: int, s: State, r: nat, id: nat)
    requires r !in s.runs && id in s.stream && id in s.pending
    ensures Enabled(v, s, Reclaim(r, id)) <==> s.time >= s.pending[id] + v
  {
  }

  /** Only what is in the stream is pending, and nothing since a time to come. */
  ghost predicate PendingIsStored(s: State) {
    forall id :: id in s.pending ==> id in s.stream && s.pending[id] <= s.time
  }

  lemma {:induction false} PendingOverRun(v: int, s: State, steps: seq<Step>)
    requires Runs(v, s, steps) && PendingIsStored(s)
    ensures PendingIsStored(After(v, s, steps))
    decreases |steps|
  {
    if steps != [] { PendingOverRun(v, Apply(v, s, steps[0]), steps[1..]); }
  }

  lemma FreshRun(s: State) returns (r: nat)
    ensures r !in s.runs
  {
    r := Unused(s.runs.Keys);
  }

  lemma {:induction false} Unused(used: set<nat>) returns (r: nat)
    ensures forall x :: x in used ==> x < r
    decreases |used|
  {
    r := 0;
    if used != {} {
      var x :| x in used;
      var rest := Unused(used - {x});
      r := Max(rest, x + 1);
      assert forall y :: y in used ==> y == x || y in used - {x};
    }
  }

  ghost predicate IsDone(s: State, job: nat) { exists i :: 0 <= i < |s.done| && s.done[i].job == job }

  ghost predicate IsDead(s: State, job: nat) { exists i :: 0 <= i < |s.dead| && s.dead[i].job == job }

  /** A job that can be finished: some further steps end with it done. */
  ghost predicate CanFinish(v: int, s: State, job: nat) {
    exists steps :: Runs(v, s, steps) && IsDone(After(v, s, steps), job)
  }

  lemma StepThen(v: int, s: State, st: Step, job: nat)
    requires Enabled(v, s, st) && CanFinish(v, Apply(v, s, st), job)
    ensures CanFinish(v, s, job)
  {
    var rest :| Runs(v, Apply(v, s, st), rest) && IsDone(After(v, Apply(v, s, st), rest), job);
    assert ([st] + rest)[0] == st && ([st] + rest)[1..] == rest;
    assert Runs(v, s, [st] + rest) && After(v, s, [st] + rest) == After(v, Apply(v, s, st), rest);
  }

  lemma RunFinishes(v: int, s: State, r: nat)
    requires r in s.runs
    ensures CanFinish(v, s, s.runs[r].e.job)
  {
    var next := Apply(v, s, Succeed(r));
    assert next.done[|s.done|] == s.runs[r].e;
    assert Runs(v, next, []) && After(v, next, []) == next;
    assert IsDone(After(v, next, []), s.runs[r].e.job);
    StepThen(v, s, Succeed(r), s.runs[r].e.job);
  }

  lemma StoredFinishes(v: int, s: State, id: nat)
    requires v >= 0 && PendingIsStored(s) && id in s.stream
    ensures CanFinish(v, s, s.stream[id].job)
  {
    var r := FreshRun(s);
    var job := s.stream[id].job;
    if id !in s.pending {
      RunFinishes(v, Apply(v, s, Read(r, id)), r);
      StepThen(v, s, Read(r, id), job);
    } else {
      var later := Apply(v, s, Tick(v));
      RunFinishes(v, Apply(v, later, Reclaim(r, id)), r);
      StepThen(v, later, Reclaim(r, id), job);
      StepThen(v, s, Tick(v), job);
    }
  }

  lemma DelayedFinishes(v: int, s: State, m: nat)
    requires v >= 0 && PendingIsStored(s) && m in s.delayed
    ensures CanFinish(v, s, s.delayed[m].e.job)
  {
    var (job, wait) := (s.delayed[m].e.job, Max(0, s.delayed[m].due - s.time));
    var later := Apply(v, s, Tick(wait));
    var next := Apply(v, later, Promote(m));
    assert PendingIsStored(next);
    StoredFinishes(v, next, later.nextEntry);
    StepThen(v, later, Promote(m), job);
    StepThen(v, s, Tick(wait), job);
  }

  /**
   * On every run, whatever died and whoever failed, a job that was accepted is done, is dead, or can still be done.
   */
  lemma NeverStuck(v: int, steps: seq<Step>, job: nat)
    requires v >= 0 && Runs(v, EMPTY, steps) && job in After(v, EMPTY, steps).accepted
    ensures IsDone(After(v, EMPTY, steps), job) || IsDead(After(v, EMPTY, steps), job)
            || CanFinish(v, After(v, EMPTY, steps), job)
  {
    var s := After(v, EMPTY, steps);
    RunKeeps(v, EMPTY, steps);
    PendingOverRun(v, EMPTY, steps);
    assert Somewhere(s, job);
    var p :| Occupied(s, p) && At(s, p).job == job;
    match p
    case InStream(id) => StoredFinishes(v, s, id);
    case InDelayed(m) => DelayedFinishes(v, s, m);
    case Dead(i) => assert s.dead[i].job == job;
    case Done(i) => assert s.done[i].job == job;
  }

  /** A field that is no number, or 0, is read as a first try of five. */
  lemma OddFieldsRead(f: Fields, jobOf: string -> nat)
    ensures !IsNumber(f.a) || Number(f.a) == 0 ==> ReadEntry(f, jobOf).attempt == 1
    ensures !IsNumber(f.m) || Number(f.m) == 0 ==> ReadEntry(f, jobOf).max == 5
  {
  }
}
