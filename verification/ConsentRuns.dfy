/**
 * Runs of the consent check (src/consent.js): any number of checks in flight, each asking the Network in batches, while
 * revocations arrive and time passes. A yes always rests on an answer to a request that is new enough.
 *
 * A step is one stretch of synchronous code; the deadline of a request is kept, so an answer is never older than that.
 */
module ConsentRuns {
  import opened Prelude
  import opened Consent

  /** When a request to the Network was started. */
  datatype Origin = Origin(step: nat, time: int)

  /** One call of answers: what it has so far, the misses, and the batch in flight that begins at `next`. */
  datatype Call = Call(
    begun: nat, at: int, purpose: string, opts: string, subjects: seq<string>, out: map<string, bool>,
    misses: seq<string>, next: nat,
    started: nat, asked: Origin)

  datatype Change = Change(step: nat, subject: Option<string>, purpose: Option<string>)

  /**
   * `said` holds each yes of the Network with the request it answered; `source` the request behind each cached
   * answer.
   */
  datatype State = State(
    step: nat, now: int, cache: Cache, source: map<Key, Origin>, calls: seq<Call>, said: set<(Key, Origin)>,
    changes: seq<Change>)

  datatype Step =
    | Begin(subjects: seq<string>, purpose: string, opts: string)
    | Reply(call: nat, answer: Option<map<string, bool>>)
    | Revoke(who: Option<string>, what: Option<string>)
    | Tick(ms: nat)

  datatype Config = Config(ttl: int, timeout: int)

  ghost predicate GoodConfig(c: Config) { c.ttl >= 0 && c.timeout >= 0 && c.ttl + c.timeout > 0 }

  const PURPOSES := {"ai.train", "data.public", "face.recognize", "app.data"}

  // -- One call ---------------------------------------------------------------

  /** The distinct non-empty subjects, in order. */
  function Distinctly(subjects: seq<string>): (r: seq<string>)
    ensures forall i :: 0 <= i < |r| ==> r[i] in subjects && r[i] != ""
    ensures forall i, j :: 0 <= i < j < |r| ==> r[i] != r[j]
    decreases |subjects|
  {
    if subjects == [] then [] else
      var (front, s) := (Distinctly(subjects[..|subjects| - 1]), subjects[|subjects| - 1]);
      if s == "" || s in front then front else front + [s]
  }

  /** The first loop of answers: each subject from the cache, or a miss. */
  function Look(c: Cache, subjects: seq<string>, purpose: string, opts: string, now: int)
    : (Cache, map<string, bool>, seq<string>)
    decreases |subjects|
  {
    if subjects == [] then (c, map[], [])
    else
      var (before, out, misses) := Look(c, subjects[..|subjects| - 1], purpose, opts, now);
      var s := subjects[|subjects| - 1];
      var (after, hit) := Fresh(before, Key(s, purpose, opts), now);
      if hit.Some? then (after, out[s := hit.value], misses) else (after, out, misses + [s])
  }

  function BatchOf(call: Call): (r: seq<string>)
    ensures |r| <= BATCH && (call.next < |call.misses| ==> |r| > 0)
    ensures forall i :: 0 <= i < |r| ==> r[i] in call.misses
  {
    if call.next < |call.misses| then call.misses[call.next..Min(call.next + BATCH, |call.misses|)] else []
  }

  predicate Yes(answer: Option<map<string, bool>>, s: string) { answer.Some? && s in answer.value && answer.value[s] }

  /** The second loop, for one batch: each answer is noted, and remembered when the batch was answered. */
  function Note(c: Cache, batch: seq<string>, answer: Option<map<string, bool>>, call: Call, now: int, ttl: int): Cache
    decreases |batch|
  {
    if batch == [] || answer.None? then c
    else
      var s := batch[|batch| - 1];
      Remember(Note(c, batch[..|batch| - 1], answer, call, now, ttl), Key(s, call.purpose, call.opts), Yes(answer, s),
          call.started, now, ttl)
  }

  function Noted(out: map<string, bool>, batch: seq<string>, answer: Option<map<string, bool>>): map<string, bool> {
    out + map s | s in batch :: Yes(answer, s)
  }

  // -- Steps ------------------------------------------------------------------

  function DoBegin(s: State, given: seq<string>, purpose: string, opts: string): State {
    var subjects := Distinctly(given);
    if purpose !in PURPOSES then
      var call := Call(s.step, s.now, purpose, opts, subjects, map x | x in subjects :: false, [], 0, 0,
          Origin(s.step, s.now));
      s.(step := s.step + 1, calls := s.calls + [call])
    else
      var (cache, out, misses) := Look(s.cache, subjects, purpose, opts, s.now);
      var call := Call(s.step, s.now, purpose, opts, subjects, out, misses, 0, cache.generation, Origin(s.step, s.now));
      s.(step := s.step + 1, cache := cache, calls := s.calls + [call])
  }

  function DoReply(s: State, i: nat, answer: Option<map<string, bool>>, c: Config): State
    requires i < |s.calls|
  {
    var call := s.calls[i];
    var batch := BatchOf(call);
    var remembered := answer.Some? && call.started == s.cache.generation && c.ttl > 0;
    var next := call.(out := Noted(call.out, batch, answer), next := call.next + |batch|,
                      started := s.cache.generation, asked := Origin(s.step, s.now));
    s.(step := s.step + 1,
       cache := Note(s.cache, batch, answer, call, s.now, c.ttl),
       source := if remembered then s.source + (map x | x in batch :: Key(x, call.purpose, call.opts) := call.asked) else s.source,
       calls := s.calls[i := next],
       said := s.said + set x | x in batch && Yes(answer, x) :: (Key(x, call.purpose, call.opts), call.asked))
  }

  function DoRevoke(s: State, subject: Option<string>, purpose: Option<string>): State {
    s.(step := s.step + 1, cache := Changed(s.cache, subject, purpose),
        changes := s.changes + [Change(s.step, subject, purpose)])
  }

  predicate Possible(s: State, step: Step, c: Config) {
    match step
    case Reply(i, answer) =>
      i < |s.calls| && s.calls[i].next < |s.calls[i].misses|
          && (answer.Some? ==> s.now <= s.calls[i].asked.time + c.timeout)
    case _ => true
  }

  function Apply(s: State, step: Step, c: Config): State
    requires Possible(s, step, c)
  {
    match step
    case Begin(subjects, purpose, opts) => DoBegin(s, subjects, purpose, opts)
    case Reply(i, answer) => DoReply(s, i, answer, c)
    case Revoke(subject, purpose) => DoRevoke(s, subject, purpose)
    case Tick(ms) => s.(step := s.step + 1, now := s.now + ms)
  }

  const INIT := State(0, 0, Cache(map[], [], 0), map[], [], {}, [])

  ghost predicate Runs(steps: seq<Step>, c: Config)
    decreases |steps|, 0
  {
    steps == [] || (Runs(steps[..|steps| - 1], c) && Possible(After(steps[..|steps| - 1], c), steps[|steps| - 1], c))
  }

  ghost function After(steps: seq<Step>, c: Config): State
    requires Runs(steps, c)
    decreases |steps|, 1
  {
    if steps == [] then INIT else Apply(After(steps[..|steps| - 1], c), steps[|steps| - 1], c)
  }

  // -- Invariants -------------------------------------------------------------

  ghost predicate Concerns(ch: Change, k: Key) { Matches(k, ch.subject, ch.purpose) }

  /** Nothing that concerns k has changed since the request was started. */
  ghost predicate Unrevoked(s: State, k: Key, o: Origin) {
    forall i :: 0 <= i < |s.changes| && Concerns(s.changes[i], k) ==> s.changes[i].step < o.step
  }

  /** A cached yes was said by the Network, to a request that no revocation has overtaken, and expires in time. */
  ghost predicate CachedYes(s: State, k: Key, c: Config)
    requires k in s.cache.entries
  {
    s.cache.entries[k].allowed ==>
      && k in s.source && (k, s.source[k]) in s.said && Unrevoked(s, k, s.source[k])
      && s.cache.entries[k].expires <= s.source[k].time + c.timeout + c.ttl
  }

  ghost predicate CacheOk(s: State, c: Config) { forall k :: k in s.cache.entries ==> CachedYes(s, k, c) }

  /**
   * The batch in flight was asked no earlier than the call began; in its own generation nothing at all has changed
   * since.
   */
  ghost predicate InFlight(s: State, call: Call) {
    && call.begun <= call.asked.step < s.step && call.at <= call.asked.time <= s.now
        && call.started <= s.cache.generation
    && (call.started == s.cache.generation && call.next < |call.misses| ==>
      forall j :: 0 <= j < |s.changes| ==> s.changes[j].step < call.asked.step)
  }

  /**
   * A yes given out rests on a request newer than every revocation before the call, and not much older than the call.
   */
  ghost predicate Backed(s: State, call: Call, k: Key, c: Config) {
    exists o :: (k, o) in s.said && NewEnough(s, call, k, o, c)
  }

  ghost predicate NewEnough(s: State, call: Call, k: Key, o: Origin, c: Config) {
    && (forall j :: 0 <= j < |s.changes| && s.changes[j].step < call.begun && Concerns(s.changes[j], k) ==>
      s.changes[j].step < o.step)
    && o.time > call.at - c.ttl - c.timeout
  }

  ghost predicate AllBacked(s: State, call: Call, c: Config) {
    forall x :: x in call.out && call.out[x] ==> Backed(s, call, Key(x, call.purpose, call.opts), c)
  }

  ghost predicate Good(s: State, c: Config) {
    && CacheOk(s, c)
    && (forall i :: 0 <= i < |s.calls| ==> InFlight(s, s.calls[i]) && AllBacked(s, s.calls[i], c))
    && (forall i :: 0 <= i < |s.changes| ==> s.changes[i].step < s.step)
  }

  // -- What the operations keep -----------------------------------------------

  /** Reading the cache only ever drops answers. */
  lemma {:induction false} LookIs(s: Cache, subjects: seq<string>, purpose: string, opts: string, now: int)
    ensures
      var (after, out, misses) := Look(s, subjects, purpose, opts, now);
      && after.generation == s.generation
      && (forall k :: k in after.entries ==> k in s.entries && after.entries[k] == s.entries[k])
      && (forall x :: x in out && out[x] ==>
        var k := Key(x, purpose, opts); k in s.entries && s.entries[k].allowed && s.entries[k].expires > now)
      && (forall x :: x in subjects <==> x in out || x in misses)
    decreases |subjects|
  {
    if subjects != [] {
      LookIs(s, subjects[..|subjects| - 1], purpose, opts, now);
      assert subjects == subjects[..|subjects| - 1] + [subjects[|subjects| - 1]];
    }
  }

  lemma RememberIs(c: Cache, k: Key, allowed: bool, started: nat, now: int, ttl: int, other: Key)
    ensures Remember(c, k, allowed, started, now, ttl).generation == c.generation
    ensures other in Remember(c, k, allowed, started, now, ttl).entries ==>
      var e := Remember(c, k, allowed, started, now, ttl).entries[other];
      || (other in c.entries && e == c.entries[other] && (other != k || started != c.generation || ttl <= 0))
      || (other == k && started == c.generation && ttl > 0 && e == Entry(allowed, now + ttl))
  {
  }

  /** After a batch, an entry is either as it was or one of the batch's answers. */
  lemma {:induction false} NoteIs(c: Cache, batch: seq<string>, answer: Option<map<string, bool>>, call: Call,
      now: int, ttl: int, k: Key)
    ensures Note(c, batch, answer, call, now, ttl).generation == c.generation
    ensures k in Note(c, batch, answer, call, now, ttl).entries ==> NotedEntry(c, batch, answer, call, now, ttl, k)
    decreases |batch|
  {
    if batch != [] && answer.Some? {
      var s := batch[|batch| - 1];
      var front := batch[..|batch| - 1];
      NoteIs(c, front, answer, call, now, ttl, k);
      RememberIs(Note(c, front, answer, call, now, ttl), Key(s, call.purpose, call.opts), Yes(answer, s),
          call.started, now, ttl, k);
      assert batch == front + [s];
    }
  }

  ghost predicate NotedEntry(c: Cache, batch: seq<string>, answer: Option<map<string, bool>>, call: Call, now: int,
      ttl: int, k: Key)
    requires k in Note(c, batch, answer, call, now, ttl).entries
  {
    var e := Note(c, batch, answer, call, now, ttl).entries[k];
    var asked := k.subject in batch && k == Key(k.subject, call.purpose, call.opts);
    var remembered := answer.Some? && call.started == c.generation && ttl > 0;
    if asked && remembered then e == Entry(Yes(answer, k.subject), now + ttl) else k in c.entries && e == c.entries[k]
  }

  lemma BeginKeeps(s: State, given: seq<string>, purpose: string, opts: string, c: Config)
    requires Good(s, c) && GoodConfig(c)
    ensures Good(DoBegin(s, given, purpose, opts), c)
  {
    var subjects := Distinctly(given);
    var next := DoBegin(s, given, purpose, opts);
    var call := next.calls[|s.calls|];
    if purpose in PURPOSES { LookIs(s.cache, subjects, purpose, opts, s.now); }
    forall k | k in next.cache.entries ensures CachedYes(next, k, c) {
      assert CachedYes(s, k, c);
    }
    forall x | x in call.out && call.out[x] ensures Backed(next, call, Key(x, purpose, opts), c) {
      var k := Key(x, purpose, opts);
      assert CachedYes(s, k, c);
      assert NewEnough(next, call, k, s.source[k], c);
    }
    forall i | 0 <= i < |s.calls| ensures InFlight(next, next.calls[i]) && AllBacked(next, next.calls[i], c) {
      assert next.calls[i] == s.calls[i];
      StillBacked(s, next, s.calls[i], c);
    }
  }

  /** More answers and later revocations take nothing away from a call that began before them. */
  lemma StillBacked(s: State, next: State, call: Call, c: Config)
    requires AllBacked(s, call, c) && s.said <= next.said && s.changes <= next.changes
    requires forall j :: |s.changes| <= j < |next.changes| ==> next.changes[j].step >= call.begun
    ensures AllBacked(next, call, c)
  {
    forall x | x in call.out && call.out[x] ensures Backed(next, call, Key(x, call.purpose, call.opts), c) {
      var k := Key(x, call.purpose, call.opts);
      assert Backed(s, call, k, c);
      var o :| (k, o) in s.said && NewEnough(s, call, k, o, c);
      assert forall j :: 0 <= j < |s.changes| ==> next.changes[j] == s.changes[j];
      assert NewEnough(next, call, k, o, c);
    }
  }

  lemma RevokeKeeps(s: State, subject: Option<string>, purpose: Option<string>, c: Config)
    requires Good(s, c)
    ensures Good(DoRevoke(s, subject, purpose), c)
  {
    var next := DoRevoke(s, subject, purpose);
    forall k | k in next.cache.entries ensures CachedYes(next, k, c) {
      assert CachedYes(s, k, c);
      assert !Matches(k, subject, purpose);
    }
    forall i | 0 <= i < |s.calls| ensures InFlight(next, next.calls[i]) && AllBacked(next, next.calls[i], c) {
      assert InFlight(s, s.calls[i]);
      StillBacked(s, next, s.calls[i], c);
    }
  }

  lemma TickKeeps(s: State, ms: nat, c: Config)
    requires Good(s, c)
    ensures Good(s.(step := s.step + 1, now := s.now + ms), c)
  {
    var next := s.(step := s.step + 1, now := s.now + ms);
    forall k | k in next.cache.entries ensures CachedYes(next, k, c) { assert CachedYes(s, k, c); }
    forall i | 0 <= i < |s.calls| ensures InFlight(next, next.calls[i]) && AllBacked(next, next.calls[i], c) {
      assert InFlight(s, s.calls[i]);
      StillBacked(s, next, s.calls[i], c);
    }
  }

  lemma ReplyKeepsCache(s: State, i: nat, answer: Option<map<string, bool>>, c: Config)
    requires Good(s, c) && Possible(s, Reply(i, answer), c)
    ensures CacheOk(DoReply(s, i, answer, c), c)
  {
    var next := DoReply(s, i, answer, c);
    assert InFlight(s, s.calls[i]);
    forall k | k in next.cache.entries ensures CachedYes(next, k, c) {
      NoteIs(s.cache, BatchOf(s.calls[i]), answer, s.calls[i], s.now, c.ttl, k);
      if IsNoted(s, s.calls[i], answer, k, c) {
        NotedKeeps(s, i, answer, c, k);
      } else {
        OthersKeep(s, i, answer, c, k);
      }
    }
  }

  /** The reply is remembered under k. */
  ghost predicate IsNoted(s: State, call: Call, answer: Option<map<string, bool>>, k: Key, c: Config) {
    k.subject in BatchOf(call) && k == Key(k.subject, call.purpose, call.opts) && answer.Some?
    && call.started == s.cache.generation && c.ttl > 0
  }

  lemma NotedKeeps(s: State, i: nat, answer: Option<map<string, bool>>, c: Config, k: Key)
    requires Possible(s, Reply(i, answer), c) && InFlight(s, s.calls[i]) && IsNoted(s, s.calls[i], answer, k, c)
    requires k in DoReply(s, i, answer, c).cache.entries
    requires NotedEntry(s.cache, BatchOf(s.calls[i]), answer, s.calls[i], s.now, c.ttl, k)
    ensures CachedYes(DoReply(s, i, answer, c), k, c)
  {
    var (next, call) := (DoReply(s, i, answer, c), s.calls[i]);
    assert next.source[k] == call.asked;
    assert Yes(answer, k.subject) ==> (k, call.asked) in next.said;
  }

  lemma OthersKeep(s: State, i: nat, answer: Option<map<string, bool>>, c: Config, k: Key)
    requires CacheOk(s, c) && Possible(s, Reply(i, answer), c) && !IsNoted(s, s.calls[i], answer, k, c)
    requires k in DoReply(s, i, answer, c).cache.entries
    requires NotedEntry(s.cache, BatchOf(s.calls[i]), answer, s.calls[i], s.now, c.ttl, k)
    ensures CachedYes(DoReply(s, i, answer, c), k, c)
  {
    assert CachedYes(s, k, c);
    SourceStays(s, DoReply(s, i, answer, c), BatchOf(s.calls[i]), s.calls[i], k);
  }

  lemma SourceStays(s: State, next: State, batch: seq<string>, call: Call, k: Key)
    requires !(k.subject in batch && k == Key(k.subject, call.purpose, call.opts)) || next.source == s.source
    requires
      var asked := map x | x in batch :: Key(x, call.purpose, call.opts) := call.asked;
      next.source == s.source || next.source == s.source + asked
    ensures k in s.source ==> k in next.source && next.source[k] == s.source[k]
  {
  }

  lemma ReplyKeepsCalls(s: State, i: nat, answer: Option<map<string, bool>>, c: Config)
    requires Good(s, c) && Possible(s, Reply(i, answer), c) && GoodConfig(c)
    ensures
      var next := DoReply(s, i, answer, c);
      forall j :: 0 <= j < |next.calls| ==> InFlight(next, next.calls[j]) && AllBacked(next, next.calls[j], c)
  {
    var next := DoReply(s, i, answer, c);
    var call := s.calls[i];
    var batch := BatchOf(call);
    assert InFlight(s, call);
    NoteIs(s.cache, batch, answer, call, s.now, c.ttl, Key("", "", ""));
    forall j | 0 <= j < |s.calls| ensures InFlight(next, next.calls[j]) && AllBacked(next, next.calls[j], c) {
      assert InFlight(s, s.calls[j]);
      StillBacked(s, next, s.calls[j], c);
      if j == i {
        forall x | x in next.calls[i].out && next.calls[i].out[x]
          ensures Backed(next, next.calls[i], Key(x, call.purpose, call.opts), c)
        {
          var k := Key(x, call.purpose, call.opts);
          if x in batch {
            assert (k, call.asked) in next.said;
            assert NewEnough(next, next.calls[i], k, call.asked, c);
          } else {
            assert Backed(next, call, k, c);
            var o :| (k, o) in next.said && NewEnough(next, call, k, o, c);
            assert NewEnough(next, next.calls[i], k, o, c);
          }
        }
      }
    }
  }

  lemma {:induction false} RunKeeps(steps: seq<Step>, c: Config)
    requires Runs(steps, c) && GoodConfig(c)
    ensures Good(After(steps, c), c)
    decreases |steps|
  {
    if steps != [] {
      RunKeeps(steps[..|steps| - 1], c);
      var s := After(steps[..|steps| - 1], c);
      match steps[|steps| - 1] {
        case Begin(subjects, purpose, opts) => BeginKeeps(s, subjects, purpose, opts, c);
        case Reply(i, answer) => ReplyKeepsCache(s, i, answer, c); ReplyKeepsCalls(s, i, answer, c);
        case Revoke(subject, purpose) => RevokeKeeps(s, subject, purpose, c);
        case Tick(ms) => TickKeeps(s, ms, c);
      }
    }
  }

  // -- What a check promises --------------------------------------------------

  /**
   * A late answer never undoes a revocation: when a check that began after a change says yes, the Network said yes for
   * that person, purpose and options to a request that was started after the change.
   */
  lemma RevocationHolds(steps: seq<Step>, c: Config, i: nat, x: string, j: nat)
    requires Runs(steps, c) && GoodConfig(c)
    requires i < |After(steps, c).calls| && j < |After(steps, c).changes|
    requires
      var (call, ch) := (After(steps, c).calls[i], After(steps, c).changes[j]);
      x in call.out && call.out[x] && ch.step < call.begun && Concerns(ch, Key(x, call.purpose, call.opts))
    ensures
      var (call, ch) := (After(steps, c).calls[i], After(steps, c).changes[j]);
      exists o :: (Key(x, call.purpose, call.opts), o) in After(steps, c).said && o.step > ch.step
  {
    RunKeeps(steps, c);
    var s := After(steps, c);
    var call := s.calls[i];
    var k := Key(x, call.purpose, call.opts);
    assert AllBacked(s, call, c) && Backed(s, call, k, c);
    var o :| (k, o) in s.said && NewEnough(s, call, k, o, c);
    assert s.changes[j].step < o.step;
  }

  /** A yes of a call rests on a request that was started less than `age` before the call began. */
  ghost predicate Younger(s: State, i: nat, x: string, age: int)
    requires i < |s.calls|
  {
    var call := s.calls[i];
    exists o :: (Key(x, call.purpose, call.opts), o) in s.said && o.time > call.at - age
  }

  ghost predicate AllYounger(s: State, age: int) {
    forall i, x :: 0 <= i < |s.calls| && x in s.calls[i].out && s.calls[i].out[x] ==> Younger(s, i, x, age)
  }

  /** On every run every yes is that young. */
  ghost predicate AlwaysYounger(c: Config, age: int) {
    forall steps :: Runs(steps, c) ==> AllYounger(After(steps, c), age)
  }

  /** A yes is never stale: it rests on a request started less than ttl plus the timeout before the check began. */
  lemma YesIsFresh(steps: seq<Step>, c: Config)
    requires Runs(steps, c) && GoodConfig(c)
    ensures AllYounger(After(steps, c), c.ttl + c.timeout)
  {
    RunKeeps(steps, c);
    var s := After(steps, c);
    forall i, x | 0 <= i < |s.calls| && x in s.calls[i].out && s.calls[i].out[x]
      ensures Younger(s, i, x, c.ttl + c.timeout)
    {
      var k := Key(x, s.calls[i].purpose, s.calls[i].opts);
      assert AllBacked(s, s.calls[i], c) && Backed(s, s.calls[i], k, c);
      var o :| (k, o) in s.said && NewEnough(s, s.calls[i], k, o, c);
    }
  }

  // -- How old the request behind a yes can be --------------------------------

  const WHO := "usr_a"
  const WHAT := "data.public"

  function AskedKey(): Key { Key(WHO, WHAT, "") }

  /** A check whose answer takes the whole timeout, and a check just before that answer expires. */
  function SlowAnswer(c: Config): seq<Step>
    requires c.ttl > 0 && c.timeout >= 0
  {
    [ Begin([WHO], WHAT, ""), Tick(c.timeout), Reply(0, Some(map[WHO := true])), Tick(c.ttl - 1),
        Begin([WHO], WHAT, "")]
  }

  function Asking(now: int, step: nat): State {
    var call := Call(0, 0, WHAT, "", [WHO], map[], [WHO], 0, 0, Origin(0, 0));
    State(step, now, Cache(map[], [], 0), map[], [call], {}, [])
  }

  function Answered(answeredAt: int, ttl: int, now: int, step: nat): State {
    var call := Call(0, 0, WHAT, "", [WHO], map[WHO := true], [WHO], 1, 0, Origin(2, answeredAt));
    var cache := Cache(map[AskedKey() := Entry(true, answeredAt + ttl)], [AskedKey()], 0);
    State(step, now, cache, map[AskedKey() := Origin(0, 0)], [call], {(AskedKey(), Origin(0, 0))}, [])
  }

  lemma JustWho()
    ensures Distinctly([WHO]) == [WHO]
  {
    assert [WHO][..0] == [];
  }

  lemma LookMiss(now: int)
    ensures Look(Cache(map[], [], 0), [WHO], WHAT, "", now) == (Cache(map[], [], 0), map[], [WHO])
  {
    assert [WHO][..0] == [] && [] + [WHO] == [WHO];
  }

  lemma LookHit(cache: Cache, now: int)
    requires AskedKey() in cache.entries && cache.entries[AskedKey()].allowed && cache.entries[AskedKey()].expires > now
    ensures Look(cache, [WHO], WHAT, "", now) == (cache, map[WHO := true], [])
  {
    assert [WHO][..0] == [];
    assert (map[])[WHO := true] == map[WHO := true];
  }

  lemma FirstCheck()
    ensures DoBegin(INIT, [WHO], WHAT, "") == Asking(0, 1)
  {
    JustWho();
    LookMiss(0);
    var call := Call(0, 0, WHAT, "", [WHO], map[], [WHO], 0, 0, Origin(0, 0));
    assert DoBegin(INIT, [WHO], WHAT, "") == INIT.(step := 1, calls := [] + [call]);
  }

  lemma NoteOne(call: Call, now: int, ttl: int)
    requires call.purpose == WHAT && call.opts == "" && call.started == 0 && ttl > 0
    ensures Note(Cache(map[], [], 0), [WHO], Some(map[WHO := true]), call, now, ttl)
         == Cache(map[AskedKey() := Entry(true, now + ttl)], [AskedKey()], 0)
  {
    assert [WHO][..0] == [];
    assert (map[])[AskedKey() := Entry(true, now + ttl)] == map[AskedKey() := Entry(true, now + ttl)];
    assert [] + [AskedKey()] == [AskedKey()];
  }

  lemma LateAnswer(c: Config)
    requires c.ttl > 0 && c.timeout >= 0
    ensures Possible(Asking(c.timeout, 2), Reply(0, Some(map[WHO := true])), c)
    ensures DoReply(Asking(c.timeout, 2), 0, Some(map[WHO := true]), c) == Answered(c.timeout, c.ttl, c.timeout, 3)
  {
    var (s, answer) := (Asking(c.timeout, 2), Some(map[WHO := true]));
    var call := s.calls[0];
    assert BatchOf(call) == [WHO];
    NoteOne(call, c.timeout, c.ttl);
    assert Noted(call.out, [WHO], answer) == map[WHO := true];
    assert map[] + (map x | x in [WHO] :: Key(x, WHAT, "") := call.asked) == map[AskedKey() := Origin(0, 0)];
    assert {} + (set x | x in [WHO] && Yes(answer, x) :: (Key(x, WHAT, ""), call.asked)) == {(AskedKey(), Origin(0, 0))} by {
      assert WHO in [WHO] && Yes(answer, WHO);
    }
    var next := Call(0, 0, WHAT, "", [WHO], map[WHO := true], [WHO], 1, 0, Origin(2, c.timeout));
    assert s.calls[0 := next] == [next];
  }

  lemma SecondCheck(answeredAt: int, ttl: int)
    requires ttl > 0
    ensures
      var (s, now) := (Answered(answeredAt, ttl, answeredAt + ttl - 1, 4), answeredAt + ttl - 1);
      var next := DoBegin(s, [WHO], WHAT, "");
      && next.said == {(AskedKey(), Origin(0, 0))} && |next.calls| == 2
      && next.calls[1].at == now && next.calls[1].purpose == WHAT && next.calls[1].opts == ""
          && next.calls[1].out == map[WHO := true]
  {
    var s := Answered(answeredAt, ttl, answeredAt + ttl - 1, 4);
    JustWho();
    LookHit(s.cache, s.now);
  }

  lemma OneMore(front: seq<Step>, step: Step, c: Config, s: State, t: State)
    requires Runs(front, c) && After(front, c) == s && Possible(s, step, c) && Apply(s, step, c) == t
    ensures Runs(front + [step], c) && After(front + [step], c) == t
  {
    assert (front + [step])[..|front|] == front;
  }

  lemma UntilAnswered(c: Config, steps: seq<Step>)
    requires c.ttl > 0 && c.timeout >= 0
    requires steps == [Begin([WHO], WHAT, "")] + [Tick(c.timeout)] + [Reply(0, Some(map[WHO := true]))]
    ensures Runs(steps, c) && After(steps, c) == Answered(c.timeout, c.ttl, c.timeout, 3)
  {
    var (ask, wait) := (Begin([WHO], WHAT, ""), Tick(c.timeout));
    FirstCheck();
    assert [] + [ask] == [ask];
    OneMore([], ask, c, INIT, Asking(0, 1));
    OneMore([ask], wait, c, Asking(0, 1), Asking(c.timeout, 2));
    LateAnswer(c);
    OneMore([ask] + [wait], Reply(0, Some(map[WHO := true])), c, Asking(c.timeout, 2),
        Answered(c.timeout, c.ttl, c.timeout, 3));
  }

  lemma SlowAnswerRuns(c: Config)
    requires c.ttl > 0 && c.timeout >= 0
    ensures Runs(SlowAnswer(c), c)
    ensures After(SlowAnswer(c), c) == DoBegin(Answered(c.timeout, c.ttl, c.timeout + c.ttl - 1, 4), [WHO], WHAT, "")
  {
    var (st, last) := (SlowAnswer(c), Answered(c.timeout, c.ttl, c.timeout + c.ttl - 1, 4));
    var front := [st[0]] + [st[1]] + [st[2]];
    UntilAnswered(c, front);
    OneMore(front, st[3], c, Answered(c.timeout, c.ttl, c.timeout, 3), last);
    OneMore(front + [st[3]], st[4], c, last, DoBegin(last, [WHO], WHAT, ""));
    assert st == front + [st[3]] + [st[4]];
  }

  /** The second check's yes has one request behind it, which is ttl + timeout - 1 old. */
  lemma SlowAnswerIsOld(c: Config)
    requires c.ttl > 0 && c.timeout >= 0
    ensures Runs(SlowAnswer(c), c)
    ensures
      var s := After(SlowAnswer(c), c);
      && |s.calls| == 2 && WHO in s.calls[1].out && s.calls[1].out[WHO] && s.calls[1].at == c.ttl + c.timeout - 1
      && (forall k, o :: (k, o) in s.said ==> k == AskedKey() && o.time == 0)
    ensures forall age :: age < c.ttl + c.timeout ==> !Younger(After(SlowAnswer(c), c), 1, WHO, age)
  {
    SlowAnswerRuns(c);
    SecondCheck(c.timeout, c.ttl);
  }

  /**
   * How young every yes is, exactly: ttl plus the timeout, and no age below it. So every yes rests on a request younger
   * than ttl, on every run, exactly when the timeout is 0.
   */
  lemma YesAgeIff(c: Config, age: int)
    requires c.ttl > 0 && c.timeout >= 0
    ensures AlwaysYounger(c, age) <==> age >= c.ttl + c.timeout
    ensures AlwaysYounger(c, c.ttl) <==> c.timeout == 0
  {
    YoungerIff(c, age);
    YoungerIff(c, c.ttl);
  }

  lemma YoungerIff(c: Config, age: int)
    requires c.ttl > 0 && c.timeout >= 0
    ensures AlwaysYounger(c, age) <==> age >= c.ttl + c.timeout
  {
    if age >= c.ttl + c.timeout {
      forall steps | Runs(steps, c) ensures AllYounger(After(steps, c), age) {
        YesIsFresh(steps, c);
        var s := After(steps, c);
        forall i, x | 0 <= i < |s.calls| && x in s.calls[i].out && s.calls[i].out[x] ensures Younger(s, i, x, age) {
          assert Younger(s, i, x, c.ttl + c.timeout);
        }
      }
    } else {
      SlowAnswerIsOld(c);
      assert !AllYounger(After(SlowAnswer(c), c), age);
    }
  }

  // -- How old a cached answer can be -----------------------------------------

  /** Step j is a reply that says yes for k, and is remembered. */
  ghost predicate StoresYes(steps: seq<Step>, c: Config, j: nat, k: Key)
    requires Runs(steps, c) && j < |steps| && Runs(steps[..j], c)
  {
    var s := After(steps[..j], c);
    && steps[j].Reply? && steps[j].call < |s.calls| && c.ttl > 0
    && var call := s.calls[steps[j].call];
       && k.subject in BatchOf(call) && k == Key(k.subject, call.purpose, call.opts)
       && Yes(steps[j].answer, k.subject) && call.started == s.cache.generation
  }

  lemma {:induction false} PrefixRuns(steps: seq<Step>, c: Config, j: nat)
    requires Runs(steps, c) && j <= |steps|
    ensures Runs(steps[..j], c)
    decreases |steps|
  {
    if j < |steps| {
      PrefixRuns(steps[..|steps| - 1], c, j);
      assert steps[..|steps| - 1][..j] == steps[..j];
    } else {
      assert steps[..j] == steps;
    }
  }

  /** The step that put a cached yes there, and when it expires. */
  lemma {:induction false} CachedYesStored(steps: seq<Step>, c: Config, k: Key) returns (j: nat)
    requires Runs(steps, c) && k in After(steps, c).cache.entries && After(steps, c).cache.entries[k].allowed
    ensures j < |steps| && Runs(steps[..j], c) && StoresYes(steps, c, j, k)
    ensures After(steps, c).cache.entries[k].expires == After(steps[..j], c).now + c.ttl
    decreases |steps|
  {
    var n := |steps| - 1;
    var (front, step) := (steps[..n], steps[n]);
    var s := After(front, c);
    PrefixRuns(steps, c, n);
    if step.Reply? {
      NoteIs(s.cache, BatchOf(s.calls[step.call]), step.answer, s.calls[step.call], s.now, c.ttl, k);
      if StoresYes(steps, c, n, k) { return n; }
    } else if step.Begin? {
      LookIs(s.cache, Distinctly(step.subjects), step.purpose, step.opts, s.now);
    }
    j := CachedYesStored(front, c, k);
    assert front[..j] == steps[..j] && front[j] == steps[j];
  }

  /**
   * A yes that a check takes from the cache was stored, by a reply that said it, less than ttl before the check: what
   * can be older is only the request that reply answered.
   */
  lemma CachedYesIsNew(steps: seq<Step>, c: Config, given: seq<string>, purpose: string, opts: string, x: string)
    requires Runs(steps, c)
    requires
      var next := DoBegin(After(steps, c), given, purpose, opts);
      var call := next.calls[|next.calls| - 1];
      x in call.out && call.out[x]
    ensures
      exists j: nat :: j < |steps| && Runs(steps[..j], c) && StoresYes(steps, c, j, Key(x, purpose, opts))
                       && After(steps, c).now - After(steps[..j], c).now < c.ttl
  {
    var (s, subjects) := (After(steps, c), Distinctly(given));
    LookIs(s.cache, subjects, purpose, opts, s.now);
    var j := CachedYesStored(steps, c, Key(x, purpose, opts));
  }

  // -- The cache stays bounded ------------------------------------------------

  lemma {:induction false} LookKeepsValid(c: Cache, subjects: seq<string>, purpose: string, opts: string, now: int)
    requires Valid(c)
    ensures Valid(Look(c, subjects, purpose, opts, now).0)
    decreases |subjects|
  {
    if subjects != [] {
      var front := subjects[..|subjects| - 1];
      LookKeepsValid(c, front, purpose, opts, now);
      FreshKeeps(Look(c, front, purpose, opts, now).0, Key(subjects[|subjects| - 1], purpose, opts), now);
    }
  }

  lemma {:induction false} NoteKeepsValid(c: Cache, batch: seq<string>, answer: Option<map<string, bool>>, call: Call,
      now: int, ttl: int)
    requires Valid(c)
    ensures Valid(Note(c, batch, answer, call, now, ttl))
    decreases |batch|
  {
    if batch != [] && answer.Some? {
      var (front, s) := (batch[..|batch| - 1], batch[|batch| - 1]);
      NoteKeepsValid(c, front, answer, call, now, ttl);
      RememberKeeps(Note(c, front, answer, call, now, ttl), Key(s, call.purpose, call.opts), Yes(answer, s),
          call.started, now, ttl);
    }
  }

  /** On every run, whatever is asked, answered and revoked, the cache holds at most 10,000 answers, each once. */
  lemma {:induction false} CacheStaysBounded(steps: seq<Step>, c: Config)
    requires Runs(steps, c)
    ensures Valid(After(steps, c).cache) && |After(steps, c).cache.order| <= 10000
    decreases |steps|
  {
    if steps != [] {
      CacheStaysBounded(steps[..|steps| - 1], c);
      var s := After(steps[..|steps| - 1], c);
      match steps[|steps| - 1] {
        case Begin(given, purpose, opts) => LookKeepsValid(s.cache, Distinctly(given), purpose, opts, s.now);
        case Reply(i, answer) => NoteKeepsValid(s.cache, BatchOf(s.calls[i]), answer, s.calls[i], s.now, c.ttl);
        case Revoke(subject, purpose) => ChangedKeeps(s.cache, subject, purpose);
        case Tick(_) =>
      }
    }
  }

  /** Answered: every subject of a call has an answer, or waits in a batch that is still to come. */
  ghost predicate Covers(call: Call) {
    call.next <= |call.misses| && forall x :: x in call.subjects <==> x in call.out || x in call.misses[call.next..]
  }

  lemma {:induction false} EveryoneIsAnswered(steps: seq<Step>, c: Config, i: nat)
    requires Runs(steps, c) && i < |After(steps, c).calls|
    ensures Covers(After(steps, c).calls[i])
    decreases |steps|
  {
    var front := steps[..|steps| - 1];
    var s := After(front, c);
    match steps[|steps| - 1] {
      case Begin(given, purpose, opts) =>
        if i < |s.calls| {
          EveryoneIsAnswered(front, c, i);
        } else if purpose in PURPOSES {
          LookIs(s.cache, Distinctly(given), purpose, opts, s.now);
        }
      case Reply(k, answer) =>
        EveryoneIsAnswered(front, c, i);
        if i == k { BatchCovers(s.calls[i], answer); }
      case Revoke(_, _) => EveryoneIsAnswered(front, c, i);
      case Tick(_) => EveryoneIsAnswered(front, c, i);
    }
  }

  lemma BatchCovers(call: Call, answer: Option<map<string, bool>>)
    requires Covers(call) && call.next < |call.misses|
    ensures Covers(call.(out := Noted(call.out, BatchOf(call), answer), next := call.next + |BatchOf(call)|))
  {
    var (batch, m) := (BatchOf(call), call.next + |BatchOf(call)|);
    assert call.misses[call.next..] == batch + call.misses[m..];
  }

  // -- filter -----------------------------------------------------------------

  function Allowed(list: seq<string>, out: map<string, bool>): (r: seq<string>)
    decreases |list|
  {
    if list == [] then [] else
      var x := list[|list| - 1];
      Allowed(list[..|list| - 1], out) + (if x in out && out[x] then [x] else [])
  }

  method Filter(list: seq<string>, out: map<string, bool>) returns (r: seq<string>)
    ensures r == Allowed(list, out)
  {
    r := [];
    var i := 0;
    while i < |list|
      invariant 0 <= i <= |list| && r == Allowed(list[..i], out)
    {
      TakeSnoc(list, i);
      if list[i] in out && out[list[i]] { r := r + [list[i]]; }
      i := i + 1;
    }
    assert list[..i] == list;
  }

  /** The index of the first occurrence. */
  function FirstAt(s: seq<string>, x: string): (i: nat)
    ensures i <= |s| && (i < |s| ==> s[i] == x) && (x in s ==> i < |s|)
    ensures forall j :: 0 <= j < i ==> s[j] != x
  {
    if s == [] then 0 else if s[0] == x then 0 else 1 + FirstAt(s[1..], x)
  }

  lemma {:induction false} DistinctlyIs(subjects: seq<string>)
    ensures forall x :: x in Distinctly(subjects) <==> x in subjects && x != ""
    ensures forall i, j :: 0 <= i < j < |Distinctly(subjects)| ==>
      FirstAt(subjects, Distinctly(subjects)[i]) < FirstAt(subjects, Distinctly(subjects)[j])
    decreases |subjects|
  {
    if subjects != [] {
      var (front, s) := (subjects[..|subjects| - 1], subjects[|subjects| - 1]);
      assert subjects == front + [s];
      DistinctlyIs(front);
      forall x | x in front ensures FirstAt(subjects, x) == FirstAt(front, x) < |front| {
        FirstSnoc(front, s, x);
      }
      if s !in front { FirstNew(front, s); }
    }
  }

  lemma {:induction false} FirstSnoc(front: seq<string>, s: string, x: string)
    requires x in front
    ensures FirstAt(front + [s], x) == FirstAt(front, x)
    decreases |front|
  {
    if front[0] != x {
      assert front == [front[0]] + front[1..];
      assert (front + [s])[1..] == front[1..] + [s];
      FirstSnoc(front[1..], s, x);
    }
  }

  lemma {:induction false} FirstNew(front: seq<string>, s: string)
    requires s !in front
    ensures FirstAt(front + [s], s) == |front|
    decreases |front|
  {
    if front != [] {
      assert (front + [s])[1..] == front[1..] + [s];
      FirstNew(front[1..], s);
    }
  }

  lemma {:induction false} AllowedIs(list: seq<string>, out: map<string, bool>)
    requires forall i, j :: 0 <= i < j < |list| ==> list[i] != list[j]
    ensures forall x :: x in Allowed(list, out) <==> x in list && x in out && out[x]
    ensures
      forall i, j :: 0 <= i < j < |Allowed(list, out)| ==>
        FirstAt(list, Allowed(list, out)[i]) < FirstAt(list, Allowed(list, out)[j])
    decreases |list|
  {
    if list != [] {
      var (front, x) := (list[..|list| - 1], list[|list| - 1]);
      assert list == front + [x];
      AllowedIs(front, out);
      forall y | y in front ensures FirstAt(list, y) == FirstAt(front, y) < |front| {
        FirstSnoc(front, x, y);
      }
      if x !in front { FirstNew(front, x); }
    }
  }
}
