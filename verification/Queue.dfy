/**
 * The durable job queue on Valkey (src/queue.js): a stream read through a consumer group, its pending list, a delayed
 * set, a dead-letter stream, and the reclaim of what dead workers left pending. A step is one command, one MULTI or
 * one script; workers may crash between any two steps and handlers may take any time.
 */
module Queue {
  import opened Prelude

  /** Milliseconds before the next try: 1 s, 2 s, 4 s … at most five minutes. */
  function Backoff(attempt: nat): (ms: nat)
    requires attempt >= 1
    ensures 1000 <= ms <= 300000
  {
    Min(300000, 1000 * Pow2(attempt - 1))
  }

  function Pow2(n: nat): (p: nat)
    ensures p >= 1
  {
    if n == 0 then 1 else 2 * Pow2(n - 1)
  }

  lemma {:induction false} Pow2Monotone(a: nat, b: nat)
    requires a <= b
    ensures Pow2(a) <= Pow2(b)
    decreases b
  {
    if a < b { Pow2Monotone(a, b - 1); }
  }

  /** The wait never shrinks from one try to the next, and from the tenth try on it is the cap. */
  lemma BackoffGrows(a: nat, b: nat)
    requires 1 <= a <= b
    ensures Backoff(a) <= Backoff(b)
    ensures b < 10 ==> Backoff(b) == 1000 * Pow2(b - 1)
    ensures b >= 10 ==> Backoff(b) == 300000
  {
    Pow2Monotone(a - 1, b - 1);
    assert Pow2(8) == 256 && Pow2(9) == 512;
    if b < 10 { Pow2Monotone(b - 1, 8); } else { Pow2Monotone(9, b - 1); }
  }

  // -- The delayed member: "<uid>|<attempt>|<max>|<json>" ---------------------

  function Member(uid: string, attempt: nat, max: nat, json: string): string {
    uid + "|" + Decimal(attempt) + "|" + Decimal(max) + "|" + json
  }

  /** string.find(s, '|', from, true): the first bar at or after `from`, or |s|. */
  function FindBar(s: string, from: nat): (i: nat)
    requires from <= |s|
    ensures from <= i <= |s| && (i < |s| ==> s[i] == '|')
    ensures forall j :: from <= j < i ==> s[j] != '|'
    decreases |s| - from
  {
    if from == |s| || s[from] == '|' then from else FindBar(s, from + 1)
  }

  datatype Fields = Fields(d: string, a: string, m: string)

  /** What the script puts in the stream for a delayed member; None when the member is not one add or run wrote. */
  function Promoted(m: string): Option<Fields> {
    var p1 := FindBar(m, 0);
    if p1 == |m| then None
    else
      var p2 := FindBar(m, p1 + 1);
      if p2 == |m| then None
      else
        var p3 := FindBar(m, p2 + 1);
        if p3 == |m| then None else Some(Fields(m[p3 + 1..], m[p1 + 1..p2], m[p2 + 1..p3]))
  }

  lemma BarIs(s: string, from: nat, i: nat)
    requires from <= i < |s| && s[i] == '|' && forall j :: from <= j < i ==> s[j] != '|'
    ensures FindBar(s, from) == i
  {
  }

  lemma PromotePieces(m: string, p1: nat, p2: nat, p3: nat)
    requires p1 < p2 < p3 < |m| && m[p1] == m[p2] == m[p3] == '|'
    requires '|' !in m[..p1] && '|' !in m[p1 + 1..p2] && '|' !in m[p2 + 1..p3]
    ensures Promoted(m) == Some(Fields(m[p3 + 1..], m[p1 + 1..p2], m[p2 + 1..p3]))
  {
    forall j | 0 <= j < p1 ensures m[j] != '|' { assert m[..p1][j] == m[j]; }
    forall j | p1 + 1 <= j < p2 ensures m[j] != '|' { assert m[p1 + 1..p2][j - p1 - 1] == m[j]; }
    forall j | p2 + 1 <= j < p3 ensures m[j] != '|' { assert m[p2 + 1..p3][j - p2 - 1] == m[j]; }
    BarIs(m, 0, p1);
    BarIs(m, p1 + 1, p2);
    BarIs(m, p2 + 1, p3);
  }

  lemma Cuts(m: string, a: string, b: string, c: string, d: string)
    requires m == a + "|" + b + "|" + c + "|" + d
    ensures var (p1, p2, p3) := (|a|, |a| + 1 + |b|, |a| + |b| + |c| + 2);
            && p3 < |m| && m[p1] == m[p2] == m[p3] == '|'
            && m[..p1] == a && m[p1 + 1..p2] == b && m[p2 + 1..p3] == c && m[p3 + 1..] == d
  {
  }

  lemma NoBar(n: nat)
    ensures '|' !in Decimal(n)
  {
  }

  lemma PromoteText(uid: string, a: string, x: string, json: string)
    requires '|' !in uid && '|' !in a && '|' !in x
    ensures Promoted(uid + "|" + a + "|" + x + "|" + json) == Some(Fields(json, a, x))
  {
    var m := uid + "|" + a + "|" + x + "|" + json;
    Cuts(m, uid, a, x, json);
    PromotePieces(m, |uid|, |uid| + 1 + |a|, |uid| + |a| + |x| + 2);
  }

  /** Promotion gives back the attempt, the maximum and the JSON text, whatever the JSON, bars included. */
  lemma PromoteRecovers(uid: string, attempt: nat, max: nat, json: string)
    requires '|' !in uid
    ensures Promoted(Member(uid, attempt, max, json)) == Some(Fields(json, Decimal(attempt), Decimal(max)))
    ensures Number(Decimal(attempt)) == attempt && Number(Decimal(max)) == max
  {
    NoBar(attempt);
    NoBar(max);
    PromoteText(uid, Decimal(attempt), Decimal(max), json);
    DecimalRoundTrip(attempt);
    DecimalRoundTrip(max);
  }

  // -- The queue as a state machine -------------------------------------------

  /** A job as an entry carries it. */
  datatype Entry = Entry(job: nat, attempt: nat, max: nat)

  /** A handler at work on an entry, since `start`. */
  datatype Run = Run(entry: nat, e: Entry, start: int)

  datatype Delayed = Delayed(due: int, e: Entry)

  /** `dead` and `done` record what left the queue; `failures` counts the failures recorded for a job. */
  datatype State = State(time: int, accepted: set<nat>, stream: map<nat, Entry>, nextEntry: nat, pending: map<nat, int>,
                         delayed: map<nat, Delayed>, nextMember: nat, dead: seq<Entry>, done: seq<Entry>,
                         runs: map<nat, Run>, failures: map<nat, nat>)

  const EMPTY: State := State(0, {}, map[], 0, map[], map[], 0, [], [], map[], map[])

  datatype Step =
    | Tick(d: nat)
    | Add(job: nat, max: nat, delayMs: nat)
    | Promote(member: nat)
    | Read(run: nat, entry: nat)
    | Reclaim(run: nat, entry: nat)
    | Succeed(run: nat)
    | Fail(run: nat)
    | Lose(run: nat)

  predicate Enabled(visibilityMs: int, s: State, st: Step) {
    match st
    case Tick(_) => true
    case Add(job, max, _) => job !in s.accepted && max >= 1
    case Promote(m) => m in s.delayed && s.delayed[m].due <= s.time
    case Read(r, id) => r !in s.runs && id in s.stream && id !in s.pending
    case Reclaim(r, id) => r !in s.runs && id in s.stream && id in s.pending && s.time - s.pending[id] >= visibilityMs
    case Succeed(r) => r in s.runs
    case Fail(r) => r in s.runs && s.runs[r].e.attempt >= 1
    case Lose(r) => r in s.runs
  }

  function Enqueue(s: State, e: Entry): State { s.(stream := s.stream[s.nextEntry := e], nextEntry := s.nextEntry + 1) }

  function Delay(s: State, due: int, e: Entry): State {
    s.(delayed := s.delayed[s.nextMember := Delayed(due, e)], nextMember := s.nextMember + 1)
  }

  /** XACK and XDEL; an entry another run already removed stays removed. */
  function Remove(s: State, id: nat): State { s.(stream := s.stream - {id}, pending := s.pending - {id}) }

  function Apply(visibilityMs: int, s: State, st: Step): State
    requires Enabled(visibilityMs, s, st)
  {
    match st
    case Tick(d) => s.(time := s.time + d)
    case Add(job, max, delayMs) =>
      var t := s.(accepted := s.accepted + {job}, failures := s.failures[job := 0]);
      if delayMs > 0 then Delay(t, s.time + delayMs, Entry(job, 1, max)) else Enqueue(t, Entry(job, 1, max))
    case Promote(m) => Enqueue(s.(delayed := s.delayed - {m}), s.delayed[m].e)
    case Read(r, id) => s.(pending := s.pending[id := s.time], runs := s.runs[r := Run(id, s.stream[id], s.time)])
    case Reclaim(r, id) => s.(pending := s.pending[id := s.time], runs := s.runs[r := Run(id, s.stream[id], s.time)])
    case Succeed(r) => Remove(s, s.runs[r].entry).(done := s.done + [s.runs[r].e], runs := s.runs - {r})
    case Fail(r) =>
      var e := s.runs[r].e;
      var t := Remove(s, s.runs[r].entry).(runs := s.runs - {r},
                 failures := s.failures[e.job := 1 + (if e.job in s.failures then s.failures[e.job] else 0)]);
      if e.attempt >= e.max then t.(dead := t.dead + [e])
      else Delay(t, s.time + Backoff(e.attempt), e.(attempt := e.attempt + 1))
    case Lose(r) => s.(runs := s.runs - {r})
  }

  predicate Runs(visibilityMs: int, s: State, steps: seq<Step>)
    decreases |steps|
  {
    steps == []
    || (Enabled(visibilityMs, s, steps[0])
        && Runs(visibilityMs, Apply(visibilityMs, s, steps[0]), steps[1..]))
  }

  function After(visibilityMs: int, s: State, steps: seq<Step>): State
    requires Runs(visibilityMs, s, steps)
    decreases |steps|
  {
    if steps == [] then s else After(visibilityMs, Apply(visibilityMs, s, steps[0]), steps[1..])
  }

  // -- The Promote step and the text it moves ---------------------------------

  /** Number(text) || otherwise. */
  function NumberOr(text: string, otherwise: nat): nat {
    if IsNumber(text) && Number(text) != 0 then Number(text) else otherwise
  }

  /** An entry as run() reads it from the fields of the stream; `jobOf` is JSON.parse. */
  function ReadEntry(f: Fields, jobOf: string -> nat): Entry { Entry(jobOf(f.d), NumberOr(f.a, 1), NumberOr(f.m, 5)) }

  /** A delayed entry as add and run write it; `text` is JSON.stringify. */
  function Written(uid: string, e: Entry, text: nat -> string): string { Member(uid, e.attempt, e.max, text(e.job)) }

  /**
   * What the script puts in the stream for a written entry is read as that entry exactly when its numbers are not 0.
   */
  lemma WrittenReads(uid: string, e: Entry, text: nat -> string, jobOf: string -> nat)
    requires '|' !in uid && jobOf(text(e.job)) == e.job
    ensures Promoted(Written(uid, e, text)).Some?
    ensures ReadEntry(Promoted(Written(uid, e, text)).value, jobOf) == e <==> e.attempt >= 1 && e.max >= 1
  {
    PromoteRecovers(uid, e.attempt, e.max, text(e.job));
  }

  /**
   * On every run a Promote step puts in the stream the entry that run() reads from the text the script moves, whatever
   * the job's JSON.
   */
  lemma PromoteMovesText(v: int, steps: seq<Step>, m: nat, uid: string, text: nat -> string, jobOf: string -> nat)
    requires Runs(v, EMPTY, steps) && Enabled(v, After(v, EMPTY, steps), Promote(m))
    requires '|' !in uid && forall job :: jobOf(text(job)) == job
    ensures
      var s := After(v, EMPTY, steps);
      var moved := Promoted(Written(uid, s.delayed[m].e, text));
      moved.Some? && Apply(v, s, Promote(m)).stream[s.nextEntry] == ReadEntry(moved.value, jobOf)
  {
    RunKeeps(v, EMPTY, steps);
    var e := After(v, EMPTY, steps).delayed[m].e;
    assert WithinMax(e);
    assert jobOf(text(e.job)) == e.job;
    WrittenReads(uid, e, text, jobOf);
  }

  // -- Places -----------------------------------------------------------------

  /** Where a job can be: an entry of the stream (waiting or pending), a delayed member, dead, or done. */
  datatype Place = InStream(id: nat) | InDelayed(m: nat) | Dead(i: nat) | Done(i: nat)

  predicate Occupied(s: State, p: Place) {
    match p
    case InStream(id) => id in s.stream
    case InDelayed(m) => m in s.delayed
    case Dead(i) => i < |s.dead|
    case Done(i) => i < |s.done|
  }

  function At(s: State, p: Place): Entry
    requires Occupied(s, p)
  {
    match p
    case InStream(id) => s.stream[id]
    case InDelayed(m) => s.delayed[m].e
    case Dead(i) => s.dead[i]
    case Done(i) => s.done[i]
  }

  ghost predicate Somewhere(s: State, job: nat) { exists p :: Occupied(s, p) && At(s, p).job == job }

  /** Numbers are fresh, and a run holds the entry as it stands in the stream. */
  ghost predicate Sane(s: State) {
    && (forall id :: id in s.stream ==> id < s.nextEntry)
    && (forall m :: m in s.delayed ==> m < s.nextMember)
    && (forall r :: r in s.runs ==> s.runs[r].entry < s.nextEntry)
    && (forall r :: r in s.runs && s.runs[r].entry in s.stream ==> s.stream[s.runs[r].entry] == s.runs[r].e)
  }

  ghost predicate NoneLost(s: State) { forall job :: job in s.accepted ==> Somewhere(s, job) }

  ghost predicate WithinMax(e: Entry) { 1 <= e.attempt <= e.max }

  /** Every entry is on a try from 1 to its maximum; a dead one is on its last. */
  ghost predicate Bounded(s: State) {
    && (forall id :: id in s.stream ==> WithinMax(s.stream[id]))
    && (forall m :: m in s.delayed ==> WithinMax(s.delayed[m].e))
    && (forall i :: 0 <= i < |s.done| ==> WithinMax(s.done[i]))
    && (forall i :: 0 <= i < |s.dead| ==> s.dead[i].attempt == s.dead[i].max >= 1)
    && (forall r :: r in s.runs ==> WithinMax(s.runs[r].e))
  }

  lemma SaneKept(v: int, s: State, st: Step)
    requires Enabled(v, s, st) && Sane(s)
    ensures Sane(Apply(v, s, st))
  {
  }

  /** Where a place goes in one step. */
  function Moved(v: int, s: State, st: Step, p: Place): Place
    requires Enabled(v, s, st) && Occupied(s, p)
  {
    match st
    case Promote(m) => if p == InDelayed(m) then InStream(s.nextEntry) else p
    case Succeed(r) => if p == InStream(s.runs[r].entry) then Done(|s.done|) else p
    case Fail(r) =>
      if p != InStream(s.runs[r].entry) then p
      else if s.runs[r].e.attempt >= s.runs[r].e.max then Dead(|s.dead|) else InDelayed(s.nextMember)
    case _ => p
  }

  lemma MovedKeepsJob(v: int, s: State, st: Step, p: Place)
    requires Enabled(v, s, st) && Sane(s) && Occupied(s, p)
    ensures Occupied(Apply(v, s, st), Moved(v, s, st, p))
    ensures At(Apply(v, s, st), Moved(v, s, st, p)).job == At(s, p).job
  {
  }

  lemma NoneLostKept(v: int, s: State, st: Step)
    requires Enabled(v, s, st) && Sane(s) && NoneLost(s)
    ensures NoneLost(Apply(v, s, st))
  {
    var s' := Apply(v, s, st);
    forall job | job in s'.accepted ensures Somewhere(s', job) {
      if job in s.accepted {
        var p :| Occupied(s, p) && At(s, p).job == job;
        MovedKeepsJob(v, s, st, p);
      } else {
        var p := if st.delayMs > 0 then InDelayed(s.nextMember) else InStream(s.nextEntry);
        assert Occupied(s', p) && At(s', p).job == job;
      }
    }
  }

  lemma FailBounded(v: int, s: State, r: nat)
    requires Enabled(v, s, Fail(r)) && Bounded(s)
    ensures Bounded(Apply(v, s, Fail(r)))
  {
    assert WithinMax(s.runs[r].e);
  }

  lemma SucceedBounded(v: int, s: State, r: nat)
    requires Enabled(v, s, Succeed(r)) && Bounded(s)
    ensures Bounded(Apply(v, s, Succeed(r)))
  {
    assert WithinMax(s.runs[r].e);
  }

  /** A step that settles nothing only copies entries, or adds a first try. */
  lemma QuietBounded(v: int, s: State, st: Step)
    requires Enabled(v, s, st) && Bounded(s) && !st.Succeed? && !st.Fail?
    ensures Bounded(Apply(v, s, st))
  {
    match st
    case Add(_, _, _) => AddBounded(v, s, st);
    case Promote(m) => assert WithinMax(s.delayed[m].e);
    case Read(_, id) => assert WithinMax(s.stream[id]);
    case Reclaim(_, id) => assert WithinMax(s.stream[id]);
    case _ =>
  }

  lemma AddBounded(v: int, s: State, st: Step)
    requires Enabled(v, s, st) && Bounded(s) && st.Add?
    ensures Bounded(Apply(v, s, st))
  {
    assert WithinMax(Entry(st.job, 1, st.max));
  }

  lemma BoundedKept(v: int, s: State, st: Step)
    requires Enabled(v, s, st) && Bounded(s)
    ensures Bounded(Apply(v, s, st))
  {
    match st
    case Fail(r) => FailBounded(v, s, r);
    case Succeed(r) => SucceedBounded(v, s, r);
    case _ => QuietBounded(v, s, st);
  }

  // -- One place a job, when handlers settle in time --------------------------

  /** Every handler at work began less than `h` ago. */
  ghost predicate Timely(h: int, s: State) { forall r :: r in s.runs ==> s.time < s.runs[r].start + h }

  ghost predicate OnePlace(s: State) {
    && (forall p, q :: Occupied(s, p) && Occupied(s, q) && p != q ==> At(s, p).job != At(s, q).job)
    && (forall p :: Occupied(s, p) ==> At(s, p).job in s.accepted)
  }

  /** Each handler works alone on an entry that is still pending for it. */
  ghost predicate Exclusive(s: State) {
    && (forall r :: r in s.runs ==> s.runs[r].entry in s.stream && s.runs[r].entry in s.pending
                                    && s.pending[s.runs[r].entry] == s.runs[r].start)
    && (forall r, q :: r in s.runs && q in s.runs && r != q ==> s.runs[r].entry != s.runs[q].entry)
  }

  ghost predicate CountedAt(s: State, p: Place)
    requires Occupied(s, p)
  {
    var e := At(s, p);
    e.job in s.failures && s.failures[e.job] + (if p.Dead? then 0 else 1) == e.attempt
  }

  /** A job's try is one more than its recorded failures; a job that is dead has failed as often as it may. */
  ghost predicate Counted(s: State) {
    && s.failures.Keys == s.accepted
    && (forall p :: Occupied(s, p) ==> CountedAt(s, p))
  }

  lemma ExclusiveKept(v: int, s: State, st: Step)
    requires Enabled(v, s, st) && Sane(s) && Exclusive(s) && Timely(v, s)
    ensures Exclusive(Apply(v, s, st))
  {
  }

  /** Every place of the next state is where some place of this one went, or the new job's. */
  lemma CameFrom(v: int, s: State, st: Step, q: Place) returns (p: Place)
    requires Enabled(v, s, st) && Sane(s) && Exclusive(s) && Occupied(Apply(v, s, st), q)
    requires !st.Add? || At(Apply(v, s, st), q).job != st.job
    ensures Occupied(s, p) && Moved(v, s, st, p) == q && At(s, p).job == At(Apply(v, s, st), q).job
  {
    match st {
      case Promote(m) => p := if q == InStream(s.nextEntry) then InDelayed(m) else q;
      case Succeed(r) => p := if q == Done(|s.done|) then InStream(s.runs[r].entry) else q;
      case Fail(r) => p := if (q == Dead(|s.dead|) || q == InDelayed(s.nextMember)) then InStream(s.runs[r].entry) else q;
      case _ => p := q;
    }
  }

  lemma OnePlaceKept(v: int, s: State, st: Step)
    requires Enabled(v, s, st) && Sane(s) && Exclusive(s) && OnePlace(s)
    ensures OnePlace(Apply(v, s, st))
  {
    var s' := Apply(v, s, st);
    forall q | Occupied(s', q) ensures At(s', q).job in s'.accepted {
      if !st.Add? || At(s', q).job != st.job {
        var p := CameFrom(v, s, st, q);
      }
    }
    forall q, r | Occupied(s', q) && Occupied(s', r) && At(s', q).job == At(s', r).job ensures q == r {
      if !st.Add? || At(s', q).job != st.job {
        var a := CameFrom(v, s, st, q);
        var b := CameFrom(v, s, st, r);
        assert a == b;
      } else {
        NewJobPlace(v, s, st, q);
        NewJobPlace(v, s, st, r);
      }
    }
  }

  lemma NewJobPlace(v: int, s: State, st: Step, q: Place)
    requires st.Add? && Enabled(v, s, st) && OnePlace(s) && Occupied(Apply(v, s, st), q)
    requires At(Apply(v, s, st), q).job == st.job
    ensures q == if st.delayMs > 0 then InDelayed(s.nextMember) else InStream(s.nextEntry)
  {
    assert Occupied(s, q) ==> At(s, q).job in s.accepted;
  }

  lemma CountedKept(v: int, s: State, st: Step)
    requires Enabled(v, s, st) && Sane(s) && Exclusive(s) && OnePlace(s) && Counted(s) && Bounded(s)
    ensures Counted(Apply(v, s, st))
  {
    var s' := Apply(v, s, st);
    if st.Fail? { assert Occupied(s, InStream(s.runs[st.run].entry)) && CountedAt(s, InStream(s.runs[st.run].entry)); }
    forall q | Occupied(s', q) ensures CountedAt(s', q) {
      if !st.Add? || At(s', q).job != st.job {
        var p := CameFrom(v, s, st, q);
        CountedMoved(v, s, st, p);
      } else {
        NewJobPlace(v, s, st, q);
      }
    }
  }

  /** A failure moves its job on with one failure more, and leaves the others' counts alone. */
  lemma CountedFailed(v: int, s: State, r: nat, p: Place)
    requires Enabled(v, s, Fail(r)) && Sane(s) && Exclusive(s) && OnePlace(s) && Counted(s) && Bounded(s)
    requires Occupied(s, p)
    requires Occupied(Apply(v, s, Fail(r)), Moved(v, s, Fail(r), p))
    ensures CountedAt(Apply(v, s, Fail(r)), Moved(v, s, Fail(r), p))
  {
    var home := InStream(s.runs[r].entry);
    assert CountedAt(s, p);
    assert Occupied(s, home);
    if p != home { assert At(s, p).job != At(s, home).job; }
  }

  lemma CountedMoved(v: int, s: State, st: Step, p: Place)
    requires Enabled(v, s, st) && Sane(s) && Exclusive(s) && OnePlace(s) && Counted(s) && Bounded(s) && Occupied(s, p)
    requires Occupied(Apply(v, s, st), Moved(v, s, st, p))
    ensures CountedAt(Apply(v, s, st), Moved(v, s, st, p))
  {
    assert CountedAt(s, p);
    if st.Fail? {
      CountedFailed(v, s, st.run, p);
    } else {
      CountedQuiet(v, s, st, p);
    }
  }

  /** No other step counts a failure. */
  lemma CountedQuiet(v: int, s: State, st: Step, p: Place)
    requires Enabled(v, s, st) && !st.Fail? && Sane(s) && OnePlace(s) && Occupied(s, p) && CountedAt(s, p)
    requires Occupied(Apply(v, s, st), Moved(v, s, st, p))
    ensures CountedAt(Apply(v, s, st), Moved(v, s, st, p))
  {
    MovedKeepsJob(v, s, st, p);
    assert At(s, p).job in s.accepted;
  }

  // -- Every run --------------------------------------------------------------

  lemma {:induction false} RunKeeps(v: int, s: State, steps: seq<Step>)
    requires Runs(v, s, steps) && Sane(s) && NoneLost(s) && Bounded(s)
    ensures Sane(After(v, s, steps)) && NoneLost(After(v, s, steps)) && Bounded(After(v, s, steps))
    decreases |steps|
  {
    if steps != [] {
      SaneKept(v, s, steps[0]);
      NoneLostKept(v, s, steps[0]);
      BoundedKept(v, s, steps[0]);
      RunKeeps(v, Apply(v, s, steps[0]), steps[1..]);
    }
  }

  /**
   * Whatever crashes and however slow the handlers: an accepted job is never lost, and a job is dead only at its
   * maximum.
   */
  lemma NeverLost(v: int, steps: seq<Step>)
    requires Runs(v, EMPTY, steps)
    ensures var s := After(v, EMPTY, steps);
            && (forall job :: job in s.accepted ==> exists p :: Occupied(s, p) && At(s, p).job == job)
            && (forall i :: 0 <= i < |s.dead| ==> s.dead[i].attempt == s.dead[i].max)
            && (forall p :: Occupied(s, p) ==> 1 <= At(s, p).attempt <= At(s, p).max)
  {
    RunKeeps(v, EMPTY, steps);
    var s := After(v, EMPTY, steps);
    forall job | job in s.accepted ensures exists p :: Occupied(s, p) && At(s, p).job == job {
      assert Somewhere(s, job);
    }
  }

  /** A run in which every handler settles, or its worker dies, within h. */
  ghost predicate TimelyRun(v: int, h: int, s: State, steps: seq<Step>)
    requires Runs(v, s, steps)
    decreases |steps|
  {
    Timely(h, s) && (steps == [] || TimelyRun(v, h, Apply(v, s, steps[0]), steps[1..]))
  }

  lemma {:induction false} TimelyRunKeeps(v: int, h: int, s: State, steps: seq<Step>)
    requires Runs(v, s, steps) && TimelyRun(v, h, s, steps) && h <= v
    requires Sane(s) && Bounded(s) && Exclusive(s) && OnePlace(s) && Counted(s)
    ensures var t := After(v, s, steps); OnePlace(t) && Counted(t)
    decreases |steps|
  {
    if steps != [] {
      SaneKept(v, s, steps[0]);
      BoundedKept(v, s, steps[0]);
      ExclusiveKept(v, s, steps[0]);
      OnePlaceKept(v, s, steps[0]);
      CountedKept(v, s, steps[0]);
      TimelyRunKeeps(v, h, Apply(v, s, steps[0]), steps[1..]);
    }
  }

  /** Each accepted job is in exactly one place. */
  ghost predicate InOnePlace(s: State) {
    && (forall job :: job in s.accepted ==> Somewhere(s, job))
    && (forall p, q :: Occupied(s, p) && Occupied(s, q) && At(s, p).job == At(s, q).job ==> p == q)
  }

  /**
   * If every handler settles, or its worker dies, within visibilityMs: each accepted job is in exactly one place, and
   * its try is one more than the failures recorded for it, until it is dead after exactly its maximum.
   */
  lemma ExactlyOnePlace(v: int, h: int, steps: seq<Step>)
    requires Runs(v, EMPTY, steps) && TimelyRun(v, h, EMPTY, steps) && h <= v
    ensures var s := After(v, EMPTY, steps);
            && InOnePlace(s)
            && (forall p :: Occupied(s, p) ==> CountedAt(s, p))
            && (forall i :: 0 <= i < |s.dead| ==>
              s.dead[i].job in s.failures && s.failures[s.dead[i].job] == s.dead[i].max)
  {
    NeverLost(v, steps);
    TimelyRunKeeps(v, h, EMPTY, steps);
    var s := After(v, EMPTY, steps);
    forall i | 0 <= i < |s.dead| ensures s.dead[i].job in s.failures && s.failures[s.dead[i].job] == s.dead[i].max {
      assert Occupied(s, Dead(i)) && CountedAt(s, Dead(i));
    }
  }

  /**
   * A handler slower than visibilityMs: the entry is reclaimed, one try succeeds and the other fails and is queued
   * again.
   */
  function SlowRun(v: nat): seq<Step> {
    [Add(7, 2, 0), Read(1, 0), Tick(v), Reclaim(2, 0), Succeed(1), Fail(2)]
  }

  /** The state after the reclaim: two handlers at work on one entry. */
  function TwoAtWork(v: nat): State {
    var e := Entry(7, 1, 2);
    State(v, {7}, map[0 := e], 1, map[0 := v as int], map[], 0, [], [], map[1 := Run(0, e, 0), 2 := Run(0, e, v)],
        map[7 := 0])
  }

  lemma TwoAtWorkReached(v: nat, h: int, rest: seq<Step>)
    requires v < h && Runs(v, TwoAtWork(v), rest) && TimelyRun(v, h, TwoAtWork(v), rest)
    ensures var steps := [Add(7, 2, 0), Read(1, 0), Tick(v), Reclaim(2, 0)] + rest;
            && Runs(v, EMPTY, steps) && After(v, EMPTY, steps) == After(v, TwoAtWork(v), rest)
            && TimelyRun(v, h, EMPTY, steps)
  {
    var s1 := Apply(v, EMPTY, Add(7, 2, 0));
    var s2 := Apply(v, s1, Read(1, 0));
    FromOneAtWork(v, h, s2, rest);
    var last := [Tick(v)] + ([Reclaim(2, 0)] + rest);
    OneStep(v, h, s1, Read(1, 0), last);
    OneStep(v, h, EMPTY, Add(7, 2, 0), [Read(1, 0)] + last);
    assert [Add(7, 2, 0)] + ([Read(1, 0)] + last) == [Add(7, 2, 0), Read(1, 0), Tick(v), Reclaim(2, 0)] + rest;
  }

  lemma FromOneAtWork(v: nat, h: int, s: State, rest: seq<Step>)
    requires v < h && Runs(v, TwoAtWork(v), rest) && TimelyRun(v, h, TwoAtWork(v), rest)
    requires s == Apply(v, Apply(v, EMPTY, Add(7, 2, 0)), Read(1, 0))
    ensures var steps := [Tick(v)] + ([Reclaim(2, 0)] + rest);
            Runs(v, s, steps) && TimelyRun(v, h, s, steps) && After(v, s, steps) == After(v, TwoAtWork(v), rest)
  {
    var t := Apply(v, s, Tick(v));
    assert Apply(v, t, Reclaim(2, 0)) == TwoAtWork(v);
    OneStep(v, h, t, Reclaim(2, 0), rest);
    OneStep(v, h, s, Tick(v), [Reclaim(2, 0)] + rest);
  }

  /**
   * One more millisecond is too much: with handlers that settle within any h above visibilityMs a job can be done and
   * delayed at once, though still never lost.
   */
  lemma SlowHandlerDuplicates(v: nat, h: int)
    requires v < h
    ensures Runs(v, EMPTY, SlowRun(v)) && TimelyRun(v, h, EMPTY, SlowRun(v))
    ensures var s := After(v, EMPTY, SlowRun(v));
            Occupied(s, Done(0)) && Occupied(s, InDelayed(0)) && At(s, Done(0)).job == At(s, InDelayed(0)).job == 7
  {
    var s5 := Apply(v, TwoAtWork(v), Succeed(1));
    OneStep(v, h, s5, Fail(2), []);
    OneStep(v, h, TwoAtWork(v), Succeed(1), [Fail(2)]);
    assert [Succeed(1)] + [Fail(2)] == [Succeed(1), Fail(2)];
    TwoAtWorkReached(v, h, [Succeed(1), Fail(2)]);
    assert SlowRun(v) == [Add(7, 2, 0), Read(1, 0), Tick(v), Reclaim(2, 0)] + [Succeed(1), Fail(2)];
  }

  lemma OneStep(v: int, h: int, s: State, st: Step, rest: seq<Step>)
    requires Enabled(v, s, st) && Timely(h, s) && Runs(v, Apply(v, s, st), rest)
    requires TimelyRun(v, h, Apply(v, s, st), rest)
    ensures Runs(v, s, [st] + rest) && After(v, s, [st] + rest) == After(v, Apply(v, s, st), rest)
    ensures TimelyRun(v, h, s, [st] + rest)
  {
    assert ([st] + rest)[1..] == rest;
  }

  /** On every run with handlers that settle within h, each job is in exactly one place. */
  ghost predicate AlwaysOnePlace(v: int, h: int) {
    forall steps :: Runs(v, EMPTY, steps) && TimelyRun(v, h, EMPTY, steps) ==> InOnePlace(After(v, EMPTY, steps))
  }

  /** Each job is in exactly one place, on every run, exactly when the handlers' time limit is at most visibilityMs. */
  lemma OnePlaceIff(v: nat, h: int)
    ensures AlwaysOnePlace(v, h) <==> h <= v
  {
    if h <= v {
      forall steps | Runs(v, EMPTY, steps) && TimelyRun(v, h, EMPTY, steps) ensures InOnePlace(After(v, EMPTY, steps)) {
        ExactlyOnePlace(v, h, steps);
      }
    } else {
      SlowHandlerDuplicates(v, h);
      assert !InOnePlace(After(v, EMPTY, SlowRun(v)));
    }
  }
}
