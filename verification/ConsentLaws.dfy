/**
 * What the records of a run of consent checks stand for, step by step: each revocation is recorded, and a yes counts as
 * said only where an answer of the Network said it; so the promises about runs are promises about what really happened.
 */
module ConsentLaws {
  import opened Prelude
  import opened Consent
  import opened ConsentRuns

  /** Every revocation of a run is recorded under its step, and nothing else is. */
  lemma {:induction false} ChangesAre(steps: seq<Step>, c: Config)
    requires Runs(steps, c)
    ensures After(steps, c).step == |steps|
    ensures forall j, who, what :: IsRevoke(steps, j, who, what) <==> Change(j, who, what) in After(steps, c).changes
    decreases |steps|
  {
    if steps != [] {
      var n := |steps| - 1;
      var (front, s) := (steps[..n], After(steps[..n], c));
      ChangesAre(front, c);
      var t := After(steps, c);
      forall j: nat, who, what
        ensures IsRevoke(steps, j, who, what) <==> Change(j, who, what) in t.changes
      {
        assert IsRevoke(front, j, who, what) <==> Change(j, who, what) in s.changes;
        if steps[n].Revoke? {
          assert t.changes == s.changes + [Change(n, steps[n].who, steps[n].what)];
        } else {
          assert t.changes == s.changes;
        }
      }
    }
  }

  ghost predicate IsRevoke(steps: seq<Step>, j: nat, who: Option<string>, what: Option<string>) {
    j < |steps| && steps[j] == Revoke(who, what)
  }

  /** The j-th step is an answer of the Network that says yes for k, to the request started at o. */
  ghost predicate SaysYes(steps: seq<Step>, c: Config, j: nat, k: Key, o: Origin)
    requires Runs(steps, c)
  {
    && j < |steps| && steps[j].Reply? && Runs(steps[..j], c) && steps[j].call < |After(steps[..j], c).calls|
    && steps[j].answer.Some? && k.subject in steps[j].answer.value && steps[j].answer.value[k.subject]
    && var call := After(steps[..j], c).calls[steps[j].call];
       k.subject in BatchOf(call) && k == Key(k.subject, call.purpose, call.opts) && o == call.asked
  }

  /** What counts as said was said. */
  lemma {:induction false} SaidIsSaid(steps: seq<Step>, c: Config, k: Key, o: Origin) returns (j: nat)
    requires Runs(steps, c) && (k, o) in After(steps, c).said
    ensures SaysYes(steps, c, j, k, o)
    decreases |steps|
  {
    var n := |steps| - 1;
    var (front, s) := (steps[..n], After(steps[..n], c));
    PrefixRuns(steps, c, n);
    if (k, o) in s.said {
      j := SaidIsSaid(front, c, k, o);
      assert front[..j] == steps[..j] && front[j] == steps[j];
    } else {
      j := n;
      var (call, answer) := (s.calls[steps[n].call], steps[n].answer);
      var x :| x in BatchOf(call) && Yes(answer, x) && (Key(x, call.purpose, call.opts), call.asked) == (k, o);
      assert x == k.subject;
    }
  }

  /**
   * When a check that began after a revocation says yes for somebody it concerns, the Network answered yes, for that
   * person, purpose and options, to a request that was started after the revocation.
   */
  lemma RevocationBinds(steps: seq<Step>, c: Config, r: nat, who: Option<string>, what: Option<string>, i: nat, x: string)
      returns (j: nat, o: Origin)
    requires Runs(steps, c) && GoodConfig(c) && IsRevoke(steps, r, who, what) && i < |After(steps, c).calls|
    requires
      var call := After(steps, c).calls[i];
      r < call.begun && Touches(Key(x, call.purpose, call.opts), who, what) && x in call.out && call.out[x]
    ensures
      var call := After(steps, c).calls[i];
      SaysYes(steps, c, j, Key(x, call.purpose, call.opts), o) && o.step > r
  {
    var s := After(steps, c);
    var (call, ch) := (s.calls[i], Change(r, who, what));
    var k := Key(x, call.purpose, call.opts);
    ChangesAre(steps, c);
    ChangeDrops(s.cache, who, what, k);
    assert ch in s.changes;
    var m :| 0 <= m < |s.changes| && s.changes[m] == ch;
    RevocationHolds(steps, c, i, x, m);
    o :| (k, o) in s.said && o.step > ch.step;
    j := SaidIsSaid(steps, c, k, o);
  }

  /** The four purposes the Network knows. */
  ghost predicate IsPurpose(p: string) {
    p == "ai.train" || p == "data.public" || p == "face.recognize" || p == "app.data"
  }

  /** A check for any other purpose asks nobody, and answers no for everybody. */
  lemma UnknownIsNo(s: State, given: seq<string>, purpose: string, opts: string)
    requires !IsPurpose(purpose)
    ensures
      var next := DoBegin(s, given, purpose, opts);
      var call := next.calls[|s.calls|];
      && |next.calls| == |s.calls| + 1 && next.cache == s.cache && call.misses == []
      && forall x :: (x in call.out <==> x in Distinctly(given)) && (x in call.out ==> !call.out[x])
  {
  }

  /** An answer that is there and has not expired. */
  ghost predicate IsFresh(c: Cache, k: Key, now: int) { k in c.entries && c.entries[k].expires > now }

  lemma {:induction false} LookExact(c: Cache, subjects: seq<string>, purpose: string, opts: string, now: int)
    requires forall i, j :: 0 <= i < j < |subjects| ==> subjects[i] != subjects[j]
    ensures
      var (after, out, misses) := Look(c, subjects, purpose, opts, now);
      && (forall k :: IsFresh(after, k, now) <==> IsFresh(c, k, now))
      && (forall k :: IsFresh(c, k, now) ==> after.entries[k] == c.entries[k])
      && (forall x :: x in out <==> x in subjects && IsFresh(c, Key(x, purpose, opts), now))
      && (forall x :: x in out ==> out[x] == c.entries[Key(x, purpose, opts)].allowed)
      && (forall x :: x in misses <==> x in subjects && !IsFresh(c, Key(x, purpose, opts), now))
    decreases |subjects|
  {
    if subjects != [] {
      var (front, s) := (subjects[..|subjects| - 1], subjects[|subjects| - 1]);
      LookExact(c, front, purpose, opts, now);
      assert subjects == front + [s];
      var (before, out, misses) := Look(c, front, purpose, opts, now);
      FreshIs(before, Key(s, purpose, opts), now);
      assert IsFresh(before, Key(s, purpose, opts), now) <==> IsFresh(c, Key(s, purpose, opts), now);
    }
  }

  lemma FreshIs(c: Cache, k: Key, now: int)
    ensures
      var (after, hit) := Fresh(c, k, now);
      && (forall l :: IsFresh(after, l, now) <==> IsFresh(c, l, now))
      && (forall l :: IsFresh(c, l, now) ==> after.entries[l] == c.entries[l])
      && (hit.Some? <==> IsFresh(c, k, now)) && (hit.Some? ==> hit.value == c.entries[k].allowed)
  {
  }

  /** A check for a known purpose takes what is fresh from the cache, and asks for exactly the others. */
  lemma KnownLooks(s: State, given: seq<string>, purpose: string, opts: string, x: string)
    requires IsPurpose(purpose) && x in Distinctly(given)
    ensures
      var next := DoBegin(s, given, purpose, opts);
      var (call, k) := (next.calls[|s.calls|], Key(x, purpose, opts));
      && (x in call.out <==> IsFresh(s.cache, k, s.now)) && (x in call.misses <==> !IsFresh(s.cache, k, s.now))
      && (x in call.out ==> call.out[x] == s.cache.entries[k].allowed)
  {
    LookExact(s.cache, Distinctly(given), purpose, opts, s.now);
  }

  /** The others are asked for in order, at most 500 at a time. */
  lemma BatchIs(call: Call)
    requires call.next < |call.misses|
    ensures |BatchOf(call)| == if |call.misses| - call.next > 500 then 500 else |call.misses| - call.next
    ensures forall i :: 0 <= i < |BatchOf(call)| ==> BatchOf(call)[i] == call.misses[call.next + i]
  {
  }

  /** A batch that is not answered is a no for everybody in it, and is not remembered. */
  lemma NoAnswerIsNo(s: State, i: nat, c: Config)
    requires i < |s.calls|
    ensures
      var (next, batch) := (DoReply(s, i, None, c), BatchOf(s.calls[i]));
      && next.cache == s.cache && next.said == s.said
      && forall x :: x in batch ==> x in next.calls[i].out && !next.calls[i].out[x]
  {
  }

  /** A batch that is answered gives everybody in it what the answer says, and a no to whom it does not name. */
  lemma AnswerIsGiven(s: State, i: nat, answer: map<string, bool>, c: Config, x: string)
    requires i < |s.calls| && x in BatchOf(s.calls[i])
    ensures
      var next := DoReply(s, i, Some(answer), c);
      x in next.calls[i].out && (next.calls[i].out[x] <==> x in answer && answer[x])
  {
  }
}
