/**
 * serialFlush (src/outbox.js): one relay pass at a time. A call while a pass runs shares the next pass, which is
 * chained on the promise of the pass that runs. The continuation of that chain comes some turns after the pass has
 * settled, so another call may have started a pass in between; then the whole queue moves behind that pass.
 */
module SerialFlush {
  import opened Prelude

  /** A pass, by the instants it started and settled. */
  datatype Pass = Pass(start: nat, end: Option<nat>)

  /** The promise `next`: the pass it is chained on, and the calls that hold it. */
  datatype Queue = Queue(after: nat, calls: set<nat>)

  /**
   * `current` and `next` are the closure's two promises, named by the pass they stand for; the rest is history:
   * the passes so far, when each call was made, and the pass each call was answered by.
   */
  datatype State = State(clock: nat, current: Option<nat>, next: Option<Queue>,
                         passes: seq<Pass>, called: map<nat, nat>, runs: map<nat, nat>)

  const IDLE: State := State(0, None, None, [], map[], map[])

  datatype Event = Call(id: nat) | PassEnds | Continue

  predicate Enabled(s: State, e: Event) {
    match e
    case Call(id) => id !in s.called
    case PassEnds => s.current.Some? && s.current.value < |s.passes|
    case Continue => s.next.Some? && s.next.value.after < |s.passes| && s.passes[s.next.value.after].end.Some?
  }

  /** flush(): start a pass for these calls, or put them on the next one. */
  function Flush(s: State, calls: set<nat>): State {
    match s.current
    case None =>
      var p := |s.passes|;
      s.(current := Some(p), passes := s.passes + [Pass(s.clock, None)],
         runs := map c | c in s.runs.Keys + calls :: if c in calls then p else s.runs[c])
    case Some(p) =>
      s.(next := Some(if s.next.None? then Queue(p, calls) else Queue(s.next.value.after, s.next.value.calls + calls)))
  }

  function Apply(s0: State, e: Event): State
    requires Enabled(s0, e)
  {
    var s := s0.(clock := s0.clock + 1);
    match e
    case Call(id) => Flush(s.(called := s.called[id := s.clock]), {id})
    case PassEnds =>
      var p := s.current.value;
      s.(current := None, passes := s.passes[p := s.passes[p].(end := Some(s.clock))])
    case Continue => Flush(s.(next := None), s.next.value.calls)
  }

  /** The closure itself, with its two promises. */
  class Flusher {
    var current: Option<nat>
    var next: Option<Queue>
    var clock: nat
    var passes: seq<Pass>
    var called: map<nat, nat>
    var runs: map<nat, nat>

    ghost function View(): State
      reads this
    {
      State(clock, current, next, passes, called, runs)
    }

    constructor ()
      ensures View() == IDLE
    {
      clock, current, next, passes, called, runs := 0, None, None, [], map[], map[];
    }

    method FlushFor(calls: set<nat>)
      modifies this
      ensures View() == Flush(old(View()), calls)
    {
      if current.None? {
        current := Some(|passes|);
        runs := map c | c in runs.Keys + calls :: if c in calls then |passes| else runs[c];
        passes := passes + [Pass(clock, None)];
        return;
      }
      if next.None? {
        next := Some(Queue(current.value, {}));
      }
      next := Some(Queue(next.value.after, next.value.calls + calls));
      assert next.value.calls == (if old(next).None? then calls else old(next).value.calls + calls);
    }

    method Call(id: nat)
      requires Enabled(View(), Event.Call(id))
      modifies this
      ensures View() == Apply(old(View()), Event.Call(id))
    {
      clock := clock + 1;
      called := called[id := clock];
      FlushFor({id});
    }

    /** The pass settles, whatever its outcome: finally() clears current. */
    method PassEnds()
      requires Enabled(View(), Event.PassEnds)
      modifies this
      ensures View() == Apply(old(View()), Event.PassEnds)
    {
      clock := clock + 1;
      passes := passes[current.value := passes[current.value].(end := Some(clock))];
      current := None;
    }

    /** The continuation chained on a settled pass runs. */
    method Continue()
      requires Enabled(View(), Event.Continue)
      modifies this
      ensures View() == Apply(old(View()), Event.Continue)
    {
      clock := clock + 1;
      var calls := next.value.calls;
      next := None;
      FlushFor(calls);
    }
  }

  // -- What every run keeps ---------------------------------------------------

  /** One pass at a time: a pass starts only once every earlier one has settled. */
  ghost predicate OneAtATime(s: State) {
    && (forall i :: 0 <= i < |s.passes| ==> s.passes[i].start <= s.clock)
    && (forall i, j :: 0 <= i < j < |s.passes| ==> s.passes[i].end.Some? && s.passes[i].end.value <= s.passes[j].start)
    && (s.current.Some? ==> s.current.value == |s.passes| - 1 && s.passes[s.current.value].end.None?)
    && (forall i :: 0 <= i < |s.passes| && s.current != Some(i) ==>
      s.passes[i].end.Some? && s.passes[i].end.value <= s.clock)
  }

  /** Every call outside `apart` is answered by a pass that started no earlier than the call, or waits in the queue. */
  ghost predicate ServedBut(s: State, apart: set<nat>) {
    && s.runs.Keys <= s.called.Keys && apart <= s.called.Keys && apart !! s.runs.Keys
    && (forall c :: c in s.called ==> s.called[c] <= s.clock)
    && (forall c :: c in s.runs ==> s.runs[c] < |s.passes| && s.called[c] <= s.passes[s.runs[c]].start)
    && (forall c :: c in s.called && c !in s.runs && c !in apart ==> s.next.Some? && c in s.next.value.calls)
    && (s.next.Some? ==> s.next.value.calls <= s.called.Keys && s.next.value.calls !! s.runs.Keys
                         && s.next.value.calls !! apart && s.next.value.after < |s.passes|)
  }

  ghost predicate Served(s: State) { ServedBut(s, {}) }

  ghost predicate Inv(s: State) { OneAtATime(s) && Served(s) }

  lemma FlushOneAtATime(s: State, calls: set<nat>)
    requires OneAtATime(s)
    ensures OneAtATime(Flush(s, calls))
  {
    var (u, n) := (Flush(s, calls), |s.passes|);
    if s.current.None? {
      assert forall i :: 0 <= i < n ==> u.passes[i] == s.passes[i];
      assert u.passes[n] == Pass(s.clock, None) && |u.passes| == n + 1;
    } else {
      assert u.passes == s.passes;
    }
  }

  lemma FlushServes(s: State, calls: set<nat>)
    requires OneAtATime(s) && ServedBut(s, calls)
    ensures Served(Flush(s, calls))
  {
    var u := Flush(s, calls);
    assert s.current.None? ==> u.next == s.next && u.runs.Keys == s.runs.Keys + calls;
  }

  lemma FlushKeeps(s: State, calls: set<nat>)
    requires OneAtATime(s) && ServedBut(s, calls)
    ensures Inv(Flush(s, calls))
  {
    FlushOneAtATime(s, calls);
    FlushServes(s, calls);
  }

  /** Time passing, a call noted or a queue taken off overlaps no passes. */
  lemma SamePasses(s: State, u: State)
    requires OneAtATime(s) && u.passes == s.passes && u.current == s.current && u.clock >= s.clock
    ensures OneAtATime(u)
  {
  }

  lemma CallKeeps(s: State, id: nat)
    requires Inv(s) && id !in s.called
    ensures Inv(Apply(s, Call(id)))
  {
    var u := s.(clock := s.clock + 1, called := s.called[id := s.clock + 1]);
    SamePasses(s, u);
    NoteCall(s, id);
    FlushKeeps(u, {id});
    assert Apply(s, Call(id)) == Flush(u, {id});
  }

  lemma NoteCall(s: State, id: nat)
    requires Served(s) && id !in s.called
    ensures ServedBut(s.(clock := s.clock + 1, called := s.called[id := s.clock + 1]), {id})
  {
  }

  lemma PassEndKeeps(s: State)
    requires Inv(s) && Enabled(s, PassEnds)
    ensures Inv(Apply(s, PassEnds))
  {
    assert OneAtATime(Apply(s, PassEnds));
  }

  lemma ContinueKeeps(s: State)
    requires Inv(s) && Enabled(s, Continue)
    ensures Inv(Apply(s, Continue))
  {
    var u := s.(clock := s.clock + 1, next := None);
    SamePasses(s, u);
    TakeQueue(s);
    FlushKeeps(u, s.next.value.calls);
    assert Apply(s, Continue) == Flush(u, s.next.value.calls);
  }

  lemma TakeQueue(s: State)
    requires Served(s) && s.next.Some?
    ensures ServedBut(s.(clock := s.clock + 1, next := None), s.next.value.calls)
  {
  }

  lemma ApplyKeeps(s: State, e: Event)
    requires Inv(s) && Enabled(s, e)
    ensures Inv(Apply(s, e))
  {
    match e
    case Call(id) => CallKeeps(s, id);
    case PassEnds => PassEndKeeps(s);
    case Continue => ContinueKeeps(s);
  }

  ghost predicate Runs(s: State, es: seq<Event>)
    decreases |es|
  {
    es == [] || (Enabled(s, es[0]) && Runs(Apply(s, es[0]), es[1..]))
  }

  function After(s: State, es: seq<Event>): State
    requires Runs(s, es)
    decreases |es|
  {
    if es == [] then s else After(Apply(s, es[0]), es[1..])
  }

  lemma {:induction false} RunKeeps(s: State, es: seq<Event>)
    requires Inv(s) && Runs(s, es)
    ensures Inv(After(s, es))
    decreases |es|
  {
    if es != [] {
      ApplyKeeps(s, es[0]);
      RunKeeps(Apply(s, es[0]), es[1..]);
    }
  }

  /** On every run: passes never overlap, and each call waits or has a pass that started no earlier than the call. */
  lemma EveryRun(es: seq<Event>)
    requires Runs(IDLE, es)
    ensures var s := After(IDLE, es);
            && (forall i, j :: 0 <= i < j < |s.passes| ==>
              s.passes[i].end.Some? && s.passes[i].end.value <= s.passes[j].start)
            && (forall c :: c in s.called ==>
                  if c in s.runs then s.runs[c] < |s.passes| && s.called[c] <= s.passes[s.runs[c]].start
                  else s.next.Some? && c in s.next.value.calls)
  {
    RunKeeps(IDLE, es);
  }

  /** Calls that wait together are answered together, by one and the same pass. */
  ghost predicate Together(s: State, c: nat, d: nat) {
    if c in s.runs || d in s.runs then c in s.runs && d in s.runs && s.runs[c] == s.runs[d]
    else s.next.Some? && c in s.next.value.calls && d in s.next.value.calls
  }

  lemma {:induction false} SharedPass(s: State, es: seq<Event>, c: nat, d: nat)
    requires Inv(s) && Runs(s, es) && Together(s, c, d)
    ensures Together(After(s, es), c, d)
    decreases |es|
  {
    if es != [] {
      ApplyKeeps(s, es[0]);
      assert c in s.called && d in s.called;
      SharedPass(Apply(s, es[0]), es[1..], c, d);
    }
  }

  /**
   * A queue whose continuation finds no pass running is answered at once; otherwise it waits behind the pass that
   * runs, whole.
   */
  lemma ContinueServes(s: State)
    requires Inv(s) && Enabled(s, Continue)
    ensures var s' := Apply(s, Continue);
            if s.current.None? then s'.next.None? && forall c :: c in s.next.value.calls ==>
              c in s'.runs && s'.runs[c] == |s.passes|
            else s'.next == Some(Queue(s.current.value, s.next.value.calls)) && s.next.value.after < s.current.value
  {
  }
}
