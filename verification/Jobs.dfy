/**
 * Following a job's event stream (src/jobs.js): reconnect with Last-Event-ID until the job ends. Every event of the log
 * arrives once, in order and without gaps, whatever connections drop or repeat; and the loop ends.
 *
 * A connection is what the network does next; a run is the list of connections made so far.
 */
module Jobs {
  import opened Prelude

  /** Number(msg.id): absent and unreadable ids are NaN, the empty one is 0 but takes no part in the order. */
  datatype Id = NoId | EmptyId | Numbered(n: int)

  datatype Message = Message(id: Id, event: string, jobIsTerminal: bool)

  /** What the iterator yields: `id` is None for null. */
  datatype Yield = Yield(id: Option<int>, event: string)

  /**
   * How the body of an answer ends: closed or dropped (reconnect), broken by another error, or aborted by the caller.
   */
  datatype Ending = Dropped | Broken | Cancelled

  datatype Connection = NoContent | Refused | Down | Failed | Aborted | Stream(messages: seq<Message>, ending: Ending)

  datatype Outcome = Running | Finished | Threw | GaveUp

  datatype State = State(last: int, failures: nat, out: seq<Yield>)

  const TERMINAL_EVENTS := {"job.succeeded", "job.failed", "job.cancelled"}

  predicate Ends(m: Message) { m.event in TERMINAL_EVENTS || (m.jobIsTerminal && m.event != "job.progress") }

  function IdOf(m: Message): Option<int> {
    match m.id
    case NoId => None
    case EmptyId => Some(0)
    case Numbered(n) => Some(n)
  }

  predicate Repeated(m: Message, last: int) { m.id.Numbered? && m.id.n <= last }

  /** One message: skipped if it was yielded before, else yielded. */
  function Take(s: State, m: Message): State {
    if Repeated(m, s.last) then s
    else State(if m.id.Numbered? then m.id.n else s.last, 0, s.out + [Yield(IdOf(m), m.event)])
  }

  /** The messages of one answer: the state, whether anything was delivered, and whether an end was reached. */
  function Read(s: State, ms: seq<Message>): (State, bool, bool)
    decreases |ms|
  {
    if ms == [] then (s, false, false)
    else
      var next := Take(s, ms[0]);
      if Repeated(ms[0], s.last) then Read(s, ms[1..])
      else if Ends(ms[0]) then (next, true, true)
      else
        var (end, _, ended) := Read(next, ms[1..]);
        (end, true, ended)
  }

  /** After an answer that did not end the iteration: count a fruitless one, and give up past the limit. */
  function Next(s: State, delivered: bool, maxReconnects: nat): (State, Outcome) {
    var failures := if delivered then s.failures else s.failures + 1;
    (s.(failures := failures), if failures > maxReconnects then GaveUp else Running)
  }

  function Connect(s: State, c: Connection, maxReconnects: nat): (State, Outcome) {
    match c
    case NoContent => (s, Finished)
    case Aborted => (s, Finished)
    case Refused => (s, Threw)
    case Failed => (s, Threw)
    case Down => Next(s, false, maxReconnects)
    case Stream(ms, ending) =>
      var (end, delivered, ended) := Read(s, ms);
      if ended || ending.Cancelled? then (end, Finished) else if ending.Broken? then (end, Threw)
      else Next(end, delivered, maxReconnects)
  }

  function Run(s: State, cs: seq<Connection>, maxReconnects: nat): (State, Outcome)
    decreases |cs|
  {
    if cs == [] then (s, Running)
    else
      var (next, o) := Connect(s, cs[0], maxReconnects);
      if o.Running? then Run(next, cs[1..], maxReconnects) else (next, o)
  }

  function Start(last: int): State { State(last, 0, []) }

  /** events, as the source runs it: the reconnect loop around the loop over one answer's messages. */
  method Events(lastEventId: int, cs: seq<Connection>, maxReconnects: nat)
    returns (yielded: seq<Yield>, last: int, outcome: Outcome)
    ensures
      var (s, o) := Run(Start(lastEventId), cs, maxReconnects);
      yielded == s.out && last == s.last && outcome == o
  {
    yielded, last := [], lastEventId;
    var failures := 0;
    var i := 0;
    while i < |cs|
      invariant 0 <= i <= |cs|
      invariant Run(Start(lastEventId), cs, maxReconnects) == Run(State(last, failures, yielded), cs[i..],
          maxReconnects)
    {
      var c := cs[i];
      var delivered := false;
      if c.NoContent? || c.Aborted? { return yielded, last, Finished; }
      if c.Refused? || c.Failed? { return yielded, last, Threw; }
      if c.Stream? {
        ghost var before := State(last, failures, yielded);
        var j := 0;
        while j < |c.messages|
          invariant 0 <= j <= |c.messages| && (delivered ==> failures == 0)
          invariant
            var (a, b) := (Read(before, c.messages), Read(State(last, failures, yielded), c.messages[j..]));
            a.0 == b.0 && a.1 == (delivered || b.1) && a.2 == b.2
        {
          var m := c.messages[j];
          j := j + 1;
          if m.id.Numbered? {
            if m.id.n <= last { continue; }
            last := m.id.n;
          }
          delivered, failures := true, 0;
          yielded := yielded + [Yield(IdOf(m), m.event)];
          if Ends(m) { return yielded, last, Finished; }
        }
        if c.ending.Cancelled? { return yielded, last, Finished; }
        if c.ending.Broken? { return yielded, last, Threw; }
      }
      if !delivered { failures := failures + 1; }
      if failures > maxReconnects { return yielded, last, GaveUp; }
      i := i + 1;
    }
    return yielded, last, Running;
  }

  // -- The server's log -------------------------------------------------------

  /** The events of a job: numbered, in increasing order. */
  ghost predicate IsLog(log: seq<Message>) {
    && (forall i :: 0 <= i < |log| ==> log[i].id.Numbered?)
    && (forall i, j :: 0 <= i < j < |log| ==> log[i].id.n < log[j].id.n)
  }

  /** How much of the log is not after `last`. */
  function Position(log: seq<Message>, last: int): (p: nat)
    ensures p <= |log|
    decreases |log|
  {
    if log == [] || !Repeated(log[0], last) then 0 else 1 + Position(log[1..], last)
  }

  lemma {:induction false} PositionIs(log: seq<Message>, last: int)
    requires IsLog(log)
    ensures forall i :: 0 <= i < |log| ==> (i < Position(log, last) <==> log[i].id.n <= last)
    decreases |log|
  {
    if log != [] {
      PositionIs(log[1..], last);
      assert forall i :: 0 < i < |log| ==> log[i] == log[1..][i - 1];
    }
  }

  /** The entry at a position is the one just before the position of its own id. */
  lemma PositionNext(log: seq<Message>, last: int)
    requires IsLog(log) && Position(log, last) < |log|
    ensures
      var p := Position(log, last);
      log[p].id.n > last && Position(log, log[p].id.n) == p + 1
  {
    var p := Position(log, last);
    PositionIs(log, last);
    PositionIs(log, log[p].id.n);
    var q := Position(log, log[p].id.n);
    assert p < q;
    assert p + 1 < |log| ==> log[p + 1].id.n > log[p].id.n;
  }

  /**
   * An answer replays the log after `last`: each message repeats an old one or is the next of the log. It may stop
   * anywhere.
   */
  ghost predicate Replays(ms: seq<Message>, log: seq<Message>, last: int)
    decreases |ms|
  {
    ms == [] || (
      var m := ms[0];
      m.id.Numbered? &&
      if m.id.n <= last then Replays(ms[1..], log, last)
      else Position(log, last) < |log| && m == log[Position(log, last)] && Replays(ms[1..], log, m.id.n))
  }

  /** What the server promises of one connection: 204 only when nothing is newer, and a stream that replays the log. */
  ghost predicate Honest(c: Connection, log: seq<Message>, last: int) {
    match c
    case NoContent => Position(log, last) == |log|
    case Stream(ms, _) => Replays(ms, log, last)
    case _ => true
  }

  ghost predicate HonestRun(s: State, cs: seq<Connection>, log: seq<Message>, maxReconnects: nat)
    decreases |cs|
  {
    cs == [] || (
      Honest(cs[0], log, s.last) &&
      var (next, o) := Connect(s, cs[0], maxReconnects);
      o.Running? ==> HonestRun(next, cs[1..], log, maxReconnects))
  }

  function Yields(ms: seq<Message>): (r: seq<Yield>)
    ensures |r| == |ms| && forall i :: 0 <= i < |ms| ==> r[i] == Yield(IdOf(ms[i]), ms[i].event)
  {
    seq(|ms|, i requires 0 <= i < |ms| => Yield(IdOf(ms[i]), ms[i].event))
  }

  /** From one state to a later one exactly the next stretch of the log was yielded. */
  ghost predicate Advances(a: State, b: State, log: seq<Message>) {
    var (p, q) := (Position(log, a.last), Position(log, b.last));
    p <= q && b.out == a.out + Yields(log[p..q])
  }

  lemma YieldsJoin(log: seq<Message>, p: nat, q: nat, r: nat)
    requires p <= q <= r <= |log|
    ensures Yields(log[p..r]) == Yields(log[p..q]) + Yields(log[q..r])
  {
  }

  lemma AdvancesTwice(a: State, b: State, c: State, log: seq<Message>)
    requires Advances(a, b, log) && Advances(b, c, log)
    ensures Advances(a, c, log)
  {
    var (p, q, r) := (Position(log, a.last), Position(log, b.last), Position(log, c.last));
    YieldsJoin(log, p, q, r);
    AppendGroups(a.out, Yields(log[p..q]), Yields(log[q..r]));
  }

  /** Yielding the entry at a position advances by that entry. */
  lemma TakeAdvances(s: State, log: seq<Message>)
    requires IsLog(log) && Position(log, s.last) < |log|
    ensures Advances(s, Take(s, log[Position(log, s.last)]), log)
  {
    var p := Position(log, s.last);
    var m := log[p];
    PositionNext(log, s.last);
    assert log[p..p + 1] == [m];
    assert Yields(log[p..p + 1]) == [Yield(IdOf(m), m.event)];
  }

  lemma AdvancesNone(s: State, log: seq<Message>)
    ensures Advances(s, s, log)
  {
    assert Yields(log[Position(log, s.last)..Position(log, s.last)]) == [];
  }

  lemma {:induction false} ReadAdvances(s: State, ms: seq<Message>, log: seq<Message>)
    requires IsLog(log) && Replays(ms, log, s.last)
    ensures
      var (end, delivered, ended) := Read(s, ms);
      && Advances(s, end, log)
      && (delivered ==> Position(log, end.last) > Position(log, s.last) && end.failures == 0)
      && (!delivered ==> end == s && !ended)
      && (ended ==> Position(log, end.last) > 0 && Ends(log[Position(log, end.last) - 1]))
    decreases |ms|
  {
    if ms == [] {
      AdvancesNone(s, log);
    } else if Repeated(ms[0], s.last) {
      ReadAdvances(s, ms[1..], log);
    } else {
      PositionNext(log, s.last);
      TakeAdvances(s, log);
      if !Ends(ms[0]) {
        var next := Take(s, ms[0]);
        ReadAdvances(next, ms[1..], log);
        AdvancesTwice(s, next, Read(next, ms[1..]).0, log);
      }
    }
  }

  lemma ConnectAdvances(s: State, c: Connection, log: seq<Message>, maxReconnects: nat)
    requires IsLog(log) && Honest(c, log, s.last)
    ensures Advances(s, Connect(s, c, maxReconnects).0, log)
    ensures
      var (next, o) := Connect(s, c, maxReconnects);
      && (o.Running? ==> next.failures <= maxReconnects)
      && (o.Running? ==>
        next.failures == s.failures + 1
        || (next.failures == 0 && Position(log, next.last) > Position(log, s.last)))
  {
    assert Yields(log[Position(log, s.last)..Position(log, s.last)]) == [];
    if c.Stream? { ReadAdvances(s, c.messages, log); }
  }

  /**
   * Once, in order and without gaps: whatever connections drop or repeat, what was yielded is a contiguous run of the
   * log that begins just after the starting id and ends at the id to resume from.
   */
  lemma {:induction false} Contiguous(s: State, cs: seq<Connection>, log: seq<Message>, maxReconnects: nat)
    requires IsLog(log) && HonestRun(s, cs, log, maxReconnects)
    ensures Advances(s, Run(s, cs, maxReconnects).0, log)
    decreases |cs|
  {
    if cs == [] {
      assert Yields(log[Position(log, s.last)..Position(log, s.last)]) == [];
    } else {
      var (next, o) := Connect(s, cs[0], maxReconnects);
      ConnectAdvances(s, cs[0], log, maxReconnects);
      if o.Running? {
        Contiguous(next, cs[1..], log, maxReconnects);
        AdvancesTwice(s, next, Run(next, cs[1..], maxReconnects).0, log);
      }
    }
  }

  /** Reattaching after a restart, from the last id that was yielded, continues the same run of the log. */
  lemma Reattach(start: int, before: seq<Connection>, after: seq<Connection>, log: seq<Message>, m: nat, n: nat)
    requires IsLog(log) && HonestRun(Start(start), before, log, m)
    requires HonestRun(Start(Run(Start(start), before, m).0.last), after, log, n)
    ensures
      var first := Run(Start(start), before, m).0;
      var second := Run(Start(first.last), after, n).0;
      var (p, q) := (Position(log, start), Position(log, second.last));
      p <= q && first.out + second.out == Yields(log[p..q])
  {
    var first := Run(Start(start), before, m).0;
    var second := Run(Start(first.last), after, n).0;
    Contiguous(Start(start), before, log, m);
    Contiguous(Start(first.last), after, log, n);
    var (p, q, r) := (Position(log, start), Position(log, first.last), Position(log, second.last));
    YieldsJoin(log, p, q, r);
  }

  ghost predicate Undisturbed(cs: seq<Connection>) {
    forall i :: 0 <= i < |cs| ==> !cs[i].Aborted? && (cs[i].Stream? ==> !cs[i].ending.Cancelled?)
  }

  /** The end of a job's log, and only the end, is a terminal event. */
  ghost predicate EndsOnce(log: seq<Message>) { forall i :: 0 <= i < |log| - 1 ==> !Ends(log[i]) }

  /** A connection that finishes the iteration, and is not aborted, leaves nothing of the log. */
  lemma EndsAtTheEnd(s: State, c: Connection, log: seq<Message>, maxReconnects: nat)
    requires IsLog(log) && Honest(c, log, s.last) && EndsOnce(log) && Connect(s, c, maxReconnects).1.Finished?
    requires !c.Aborted? && (c.Stream? ==> !c.ending.Cancelled?)
    ensures Position(log, Connect(s, c, maxReconnects).0.last) == |log|
  {
    if c.Stream? { ReadAdvances(s, c.messages, log); }
  }

  /** What is left of the log from a is what is yielded up to b and what is left from there. */
  lemma RestSplits(a: State, b: State, log: seq<Message>, rest: seq<Yield>)
    requires Advances(a, b, log) && rest == Yields(log[Position(log, b.last)..])
    ensures b.out + rest == a.out + Yields(log[Position(log, a.last)..])
  {
    var (p, q) := (Position(log, a.last), Position(log, b.last));
    YieldsJoin(log, p, q, |log|);
    assert log[p..|log|] == log[p..] && log[q..|log|] == log[q..];
    AppendGroups(a.out, Yields(log[p..q]), rest);
  }

  /** Unless the caller aborts, an iteration that finishes has yielded everything after its start. */
  lemma {:induction false} FinishedIsComplete(s: State, cs: seq<Connection>, log: seq<Message>, maxReconnects: nat)
    requires IsLog(log) && HonestRun(s, cs, log, maxReconnects) && Undisturbed(cs) && EndsOnce(log)
    requires Run(s, cs, maxReconnects).1.Finished?
    ensures Run(s, cs, maxReconnects).0.out == s.out + Yields(log[Position(log, s.last)..])
    decreases |cs|
  {
    var (next, o) := Connect(s, cs[0], maxReconnects);
    ConnectAdvances(s, cs[0], log, maxReconnects);
    RestSplits(s, next, log, Yields(log[Position(log, next.last)..]));
    if o.Running? {
      FinishedIsComplete(next, cs[1..], log, maxReconnects);
    } else {
      EndsAtTheEnd(s, cs[0], log, maxReconnects);
      assert log[Position(log, next.last)..] == [] && Yields([]) == [];
    }
  }

  lemma Shift(k: int, x: int, m: int)
    requires k >= x + 1 && m >= 0
    ensures k * (m + 1) >= x * (m + 1) + m + 1
  {
    assert (k - x - 1) * (m + 1) >= 0;
    assert (k - x - 1) * (m + 1) == k * (m + 1) - x * (m + 1) - (m + 1);
  }

  lemma {:induction false} Measure(s: State, cs: seq<Connection>, log: seq<Message>, maxReconnects: nat)
    requires IsLog(log) && HonestRun(s, cs, log, maxReconnects) && s.failures <= maxReconnects
    requires Run(s, cs, maxReconnects).1.Running?
    ensures
      var end := Run(s, cs, maxReconnects).0;
      && end.failures <= maxReconnects && Position(log, s.last) <= Position(log, end.last)
      && |cs| + s.failures + Position(log, s.last) * (maxReconnects + 1)
         <= Position(log, end.last) * (maxReconnects + 1) + end.failures
    decreases |cs|
  {
    if cs != [] {
      var (next, o) := Connect(s, cs[0], maxReconnects);
      ConnectAdvances(s, cs[0], log, maxReconnects);
      Measure(next, cs[1..], log, maxReconnects);
      var (p, q) := (Position(log, s.last), Position(log, next.last));
      if q > p { Shift(q, p, maxReconnects); }
    }
  }

  lemma Fewer(n: nat, p: nat, q: nat, m: nat)
    requires p <= q <= n
    ensures q * m - p * m <= (n - p) * m
  {
    assert (n - q) * m >= 0;
    assert (n - q) * m == n * m - q * m && (n - p) * m == n * m - p * m;
  }

  /** The iteration ends: at most this many connections are made while events are left and the limit allows. */
  lemma Terminates(start: int, cs: seq<Connection>, log: seq<Message>, maxReconnects: nat)
    requires IsLog(log) && HonestRun(Start(start), cs, log, maxReconnects)
    requires |cs| > (|log| - Position(log, start)) * (maxReconnects + 1) + maxReconnects
    ensures !Run(Start(start), cs, maxReconnects).1.Running?
  {
    if Run(Start(start), cs, maxReconnects).1.Running? {
      Measure(Start(start), cs, log, maxReconnects);
      Fewer(|log|, Position(log, start), Position(log, Run(Start(start), cs, maxReconnects).0.last), maxReconnects + 1);
      assert false;
    }
  }

  // -- Messages without a number ----------------------------------------------

  /** An answer that replays the log after `last` and mixes in, anywhere, messages of `extra` that carry no number. */
  ghost predicate Mixes(ms: seq<Message>, log: seq<Message>, last: int, extra: set<Message>)
    decreases |ms|
  {
    ms == [] || (
      var m := ms[0];
      if !m.id.Numbered? then m in extra && Mixes(ms[1..], log, last, extra)
      else if m.id.n <= last then Mixes(ms[1..], log, last, extra)
      else Position(log, last) < |log| && m == log[Position(log, last)] && Mixes(ms[1..], log, m.id.n, extra))
  }

  ghost predicate MixedRun(s: State, cs: seq<Connection>, log: seq<Message>, maxReconnects: nat, extra: set<Message>)
    decreases |cs|
  {
    cs == [] || (
      && (if cs[0].Stream? then Mixes(cs[0].messages, log, s.last, extra) else Honest(cs[0], log, s.last))
      && var (next, o) := Connect(s, cs[0], maxReconnects);
         o.Running? ==> MixedRun(next, cs[1..], log, maxReconnects, extra))
  }

  /** Where every message without a number ends the iteration, an answer that did not end it had none. */
  lemma {:induction false} NothingMixed(s: State, ms: seq<Message>, log: seq<Message>, extra: set<Message>)
    requires Mixes(ms, log, s.last, extra) && (forall m :: m in extra ==> Ends(m)) && !Read(s, ms).2
    ensures Replays(ms, log, s.last)
    decreases |ms|
  {
    if ms != [] { NothingMixed(Take(s, ms[0]), ms[1..], log, extra); }
  }

  lemma {:induction false} RunningIsHonest(s: State, cs: seq<Connection>, log: seq<Message>, maxReconnects: nat,
      extra: set<Message>)
    requires MixedRun(s, cs, log, maxReconnects, extra) && (forall m :: m in extra ==> Ends(m))
    requires Run(s, cs, maxReconnects).1.Running?
    ensures HonestRun(s, cs, log, maxReconnects)
    decreases |cs|
  {
    if cs != [] {
      if cs[0].Stream? { NothingMixed(s, cs[0].messages, log, extra); }
      RunningIsHonest(Connect(s, cs[0], maxReconnects).0, cs[1..], log, maxReconnects, extra);
    }
  }

  /**
   * A message that carries no number and does not end the iteration is delivered on every connection, so the count of
   * failures never grows and the iteration goes on for as many connections as there are.
   */
  lemma {:induction false} WithoutIdsForever(s: State, cs: seq<Connection>, maxReconnects: nat, m: Message)
    requires s.failures <= maxReconnects && !m.id.Numbered? && !Ends(m)
    requires forall i :: 0 <= i < |cs| ==> cs[i] == Stream([m], Dropped)
    ensures Run(s, cs, maxReconnects).1.Running? && |Run(s, cs, maxReconnects).0.out| == |s.out| + |cs|
    ensures forall log, extra :: m in extra ==> MixedRun(s, cs, log, maxReconnects, extra)
    decreases |cs|
  {
    if cs != [] {
      assert Read(s, [m]) == (Take(s, m), true, false) by { assert [m][1..] == []; }
      WithoutIdsForever(Connect(s, cs[0], maxReconnects).0, cs[1..], maxReconnects, m);
      forall log, extra | m in extra ensures MixedRun(s, cs, log, maxReconnects, extra) {
        assert [m][1..] == [] && Mixes([m], log, s.last, extra);
      }
    }
  }

  /** No iteration over more than `bound` connections is still going on. */
  ghost predicate EndsWithin(bound: nat, start: int, log: seq<Message>, maxReconnects: nat, extra: set<Message>) {
    forall cs :: MixedRun(Start(start), cs, log, maxReconnects, extra) && |cs| > bound ==>
      !Run(Start(start), cs, maxReconnects).1.Running?
  }

  ghost predicate HasBound(start: int, log: seq<Message>, maxReconnects: nat, extra: set<Message>) {
    exists bound: nat :: EndsWithin(bound, start, log, maxReconnects, extra)
  }

  /** There is a bound on the connections exactly when every message without a number ends the iteration. */
  lemma TerminatesIff(start: int, log: seq<Message>, maxReconnects: nat, extra: set<Message>)
    requires IsLog(log) && forall m :: m in extra ==> !m.id.Numbered?
    ensures HasBound(start, log, maxReconnects, extra) <==> forall m :: m in extra ==> Ends(m)
  {
    if forall m :: m in extra ==> Ends(m) {
      Products(|log| - Position(log, start), maxReconnects + 1);
      var bound: nat := (|log| - Position(log, start)) * (maxReconnects + 1) + maxReconnects;
      forall cs | MixedRun(Start(start), cs, log, maxReconnects, extra) && |cs| > bound
        ensures !Run(Start(start), cs, maxReconnects).1.Running?
      {
        if Run(Start(start), cs, maxReconnects).1.Running? {
          RunningIsHonest(Start(start), cs, log, maxReconnects, extra);
          Terminates(start, cs, log, maxReconnects);
          assert false;
        }
      }
      assert EndsWithin(bound, start, log, maxReconnects, extra);
    } else {
      var m :| m in extra && !Ends(m);
      forall bound: nat ensures !EndsWithin(bound, start, log, maxReconnects, extra) {
        var cs := seq(bound + 1, _ => Stream([m], Dropped));
        WithoutIdsForever(Start(start), cs, maxReconnects, m);
      }
    }
  }

  lemma Products(a: int, b: int)
    requires a >= 0 && b >= 0
    ensures a * b >= 0
  {
  }
}
