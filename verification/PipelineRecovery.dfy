/**
 * What the pipeline can still do, from every state it can reach: though every relay and every consumer dies, what is
 * pending can be published and settled, and every consumer can walk the log to its end, however Events cuts it into
 * pages. And what settling a row does to it and to its batch, read off the rows alone.
 */
module PipelineRecovery {
  import opened Prelude
  import opened Outbox
  import opened Pipeline

  // -- Settling a row ---------------------------------------------------------

  /** The batch holds what it held but for the settled rows, and is gone when that is nothing; no other batch moves. */
  ghost predicate LeftOver(before: map<nat, Claimed>, after: map<nat, Claimed>, b: nat, ids: set<nat>)
    requires b in before
  {
    && (forall d :: d != b ==> (d in after <==> d in before) && (d in before ==> d in after && after[d] == before[d]))
    && (b !in after <==> before[b].rows.Keys <= ids)
    && (b in after ==> after[b].at == before[b].at && after[b].acked == before[b].acked - ids)
    && (b in after ==> forall id :: id in after[b].rows <==> id in before[b].rows && id !in ids)
    && (b in after ==> forall id :: id in after[b].rows && id in before[b].rows ==>
          after[b].rows[id] == before[b].rows[id])
  }

  lemma FinishIs(batches: map<nat, Claimed>, b: nat, ids: set<nat>)
    requires b in batches
    ensures LeftOver(batches, Finish(batches, b, ids), b, ids)
  {
    var (rows, left) := (batches[b].rows, batches[b].rows - ids);
    assert left.Keys == rows.Keys - ids;
    if rows.Keys <= ids {
      assert left.Keys == {};
    } else {
      var id :| id in rows.Keys && id !in ids;
      assert id in left.Keys;
    }
  }

  lemma MarkIs(cfg: Config, x: State, b: nat, ids: set<nat>)
    requires GoodConfig(cfg) && Enabled(cfg, x, Relay(Mark(b, ids)))
    ensures
      var (o, o') := (x.o, Apply(cfg, x, Relay(Mark(b, ids))).o);
      && o'.table.Keys == o.table.Keys && LeftOver(o.batches, o'.batches, b, ids)
      && forall id :: id in o.table ==>
           o'.table[id] ==
             if id !in ids then o.table[id]
             else o.table[id].(attempts := o.table[id].attempts + 1, sentAt := Some(x.time))
  {
    FinishIs(x.o.batches, b, ids);
  }

  /** A row that failed waits as its attempts when it was claimed say. */
  lemma FailIs(cfg: Config, x: State, b: nat, id: nat, permanent: bool)
    requires GoodConfig(cfg) && Enabled(cfg, x, Relay(Fail(b, id, permanent)))
    ensures
      var (o, o') := (x.o, Apply(cfg, x, Relay(Fail(b, id, permanent))).o);
      && o'.table.Keys == o.table.Keys && LeftOver(o.batches, o'.batches, b, {id})
      && (forall i :: i in o.table && i != id ==> o'.table[i] == o.table[i])
      && (id in o.table && permanent ==>
            o'.table[id] == o.table[id].(attempts := o.table[id].attempts + 1, rejectedAt := Some(x.time)))
      && (id in o.table && !permanent ==>
            var wait := Outbox.DueAgain(o.batches[b].rows[id], x.time, cfg.backoffMs);
            o'.table[id] == o.table[id].(attempts := o.table[id].attempts + 1, due := wait.due))
  {
    FinishIs(x.o.batches, b, {id});
  }

  /** Where no other relay has settled the row meanwhile, it is settled as the relay on its own settles it. */
  lemma SettlesAsOneRelay(cfg: Config, x: State, b: nat, id: nat, permanent: bool)
    requires GoodConfig(cfg) && Enabled(cfg, x, Relay(Fail(b, id, permanent))) && id in x.o.table
    requires Pending(x.o.table[id]) && x.o.batches[b].rows[id].attempts == x.o.table[id].attempts
    ensures
      var r' := Apply(cfg, x, Relay(Fail(b, id, permanent))).o.table[id];
      SettledAt(x.o.table[id], r', x.time, {}, cfg.backoffMs)
        && FateOf(r') == if permanent then WasRejected else StillPending
  {
    FailIs(cfg, x, b, id, permanent);
  }

  // -- What every run keeps besides -------------------------------------------

  /** A batch in flight has a row left, and no more than a claim takes. */
  ghost predicate Sized(cfg: Config, batches: map<nat, Claimed>) {
    forall b :: b in batches ==> 1 <= |batches[b].rows.Keys| <= cfg.batchSize
  }

  /** An event id has one row, or one transaction that will write it. */
  ghost predicate Unique(o: Producers) {
    && (forall i, j :: i in o.table && j in o.table && i != j ==> o.table[i].eventId != o.table[j].eventId)
    && (forall tx, i :: tx in o.pending && i in o.table ==> o.pending[tx] != o.table[i].eventId)
    && (forall t, u :: t in o.pending && u in o.pending && t != u ==> o.pending[t] != o.pending[u])
  }

  /** A consumer that joined has a cursor, and no cursor or walk of it lies before where it joined. */
  ghost predicate AfterJoining(s: Consumers) {
    && s.saved.Keys == s.joined.Keys
    && (forall c :: c in s.saved ==> s.joined[c] <= s.saved[c])
    && (forall w :: w in s.walks ==>
          s.walks[w].consumer in s.joined && s.joined[s.walks[w].consumer] <= s.walks[w].at <= s.walks[w].next)
  }

  ghost predicate Tidy(cfg: Config, x: State) { Sized(cfg, x.o.batches) && Unique(x.o) && AfterJoining(x.s) }

  lemma SizedKept(cfg: Config, x: State, r: RelayStep)
    requires GoodConfig(cfg) && Enabled(cfg, x, Relay(r)) && Sized(cfg, x.o.batches)
    ensures Sized(cfg, Apply(cfg, x, Relay(r)).o.batches)
  {
    match r {
      case Mark(b, ids) => SettleKeepsSized(cfg, x.o.batches, b, ids);
      case Fail(b, id, _) => SettleKeepsSized(cfg, x.o.batches, b, {id});
      case Claim(b, ids) => assert Apply(cfg, x, Relay(r)).o.batches[b].rows.Keys == ids;
      case _ =>
    }
  }

  lemma SettleKeepsSized(cfg: Config, batches: map<nat, Claimed>, b: nat, ids: set<nat>)
    requires b in batches && Sized(cfg, batches)
    ensures Sized(cfg, Finish(batches, b, ids))
  {
    var (before, after) := (batches, Finish(batches, b, ids));
    FinishIs(batches, b, ids);
    if b in after {
      var id :| id in before[b].rows.Keys && id !in ids;
      assert id in after[b].rows;
      assert after[b].rows.Keys == before[b].rows.Keys - ids;
    }
  }

  lemma UniqueKept(cfg: Config, x: State, r: RelayStep)
    requires GoodConfig(cfg) && Enabled(cfg, x, Relay(r)) && Unique(x.o)
    requires forall id :: id in x.o.table ==> id < x.o.nextId
    ensures Unique(Apply(cfg, x, Relay(r)).o)
  {
  }

  lemma AfterJoiningKept(s: Consumers, cfg: Config, log: seq<string>, oldest: nat, st: ConsumeStep)
    requires ConsumeEnabled(s, log, oldest, st) && AfterJoining(s)
    ensures AfterJoining(ConsumeApply(cfg, s, log, oldest, st))
  {
  }

  lemma TidyKept(cfg: Config, x: State, st: Step)
    requires GoodConfig(cfg) && Enabled(cfg, x, st) && Tidy(cfg, x) && Inv(cfg, x)
    ensures Tidy(cfg, Apply(cfg, x, st))
  {
    if st.Relay? { SizedKept(cfg, x, st.r); UniqueKept(cfg, x, st.r); }
    if st.Consume? { AfterJoiningKept(x.s, cfg, x.log, x.oldest, st.k); }
  }

  lemma {:induction false} TidyOverRun(cfg: Config, x: State, steps: seq<Step>)
    requires GoodConfig(cfg) && Runs(cfg, x, steps) && Inv(cfg, x) && Tidy(cfg, x)
    ensures Inv(cfg, After(cfg, x, steps)) && Tidy(cfg, After(cfg, x, steps))
    decreases |steps|
  {
    if steps != [] {
      ApplyKeeps(cfg, x, steps[0]);
      TidyKept(cfg, x, steps[0]);
      TidyOverRun(cfg, Apply(cfg, x, steps[0]), steps[1..]);
    }
  }

  /**
   * On every run: an event id has at most one row, a batch in flight holds between one row and a full claim, and no
   * cursor or walk lies before where its consumer joined.
   */
  lemma InOrder(cfg: Config, steps: seq<Step>)
    requires GoodConfig(cfg) && Runs(cfg, START, steps)
    ensures
      var x := After(cfg, START, steps);
      && (forall i, j :: i in x.o.table && j in x.o.table && i != j ==> x.o.table[i].eventId != x.o.table[j].eventId)
      && (forall b :: b in x.o.batches ==> 1 <= |x.o.batches[b].rows.Keys| <= cfg.batchSize)
      && (forall c :: c in x.s.joined ==> c in x.s.saved && x.s.joined[c] <= x.s.saved[c] <= |x.log|)
      && (forall w :: w in x.s.walks ==>
            var k := x.s.walks[w]; k.consumer in x.s.joined && x.s.joined[k.consumer] <= k.at <= k.next <= |x.log|)
  {
    TidyOverRun(cfg, START, steps);
    var x := After(cfg, START, steps);
    forall c | c in x.s.joined ensures x.s.saved[c] <= |x.log| {
      assert DoneUpTo(cfg, x.s, x.log, c, x.s.saved[c]);
    }
  }

  /** A transaction leaves a row, due at once, exactly if it commits; either way it is over. */
  lemma RowIfCommitted(cfg: Config, x: State, tx: nat)
    requires GoodConfig(cfg) && Inv(cfg, x) && Tidy(cfg, x) && tx in x.o.pending
    ensures Enabled(cfg, x, Relay(Commit(tx))) && Enabled(cfg, x, Relay(Rollback(tx)))
    ensures
      var (o, done, undone) :=
        (x.o, Apply(cfg, x, Relay(Commit(tx))).o, Apply(cfg, x, Relay(Rollback(tx))).o);
      && tx !in done.pending && tx !in undone.pending
      && (exists id: nat :: id !in o.table && done.table == o.table[id := Row(o.pending[tx], 0, 0, None, None)])
      && o.pending[tx] in done.committed
      && undone.table == o.table && undone.committed == o.committed
      && forall id :: id in undone.table ==> undone.table[id].eventId != o.pending[tx]
  {
    assert x.o.nextId !in x.o.table;
  }

  /** Pruning takes the rows sent before an instant, and no other. */
  lemma PruneTakesOldSent(cfg: Config, x: State, before: int)
    requires GoodConfig(cfg)
    ensures Enabled(cfg, x, Relay(Prune(before)))
    ensures
      var (o, o') := (x.o, Apply(cfg, x, Relay(Prune(before))).o);
      && o' == o.(table := o'.table)
      && (forall id :: id in o'.table ==> id in o.table && o'.table[id] == o.table[id])
      && (forall id :: id in o.table ==>
            (id in o'.table <==> o.table[id].sentAt.None? || o.table[id].sentAt.value >= before))
  {
  }

  // -- Runs -------------------------------------------------------------------

  lemma {:induction false} Joined(cfg: Config, x: State, a: seq<Step>, b: seq<Step>)
    requires GoodConfig(cfg) && Runs(cfg, x, a) && Runs(cfg, After(cfg, x, a), b)
    ensures Runs(cfg, x, a + b) && After(cfg, x, a + b) == After(cfg, After(cfg, x, a), b)
    decreases |a|
  {
    if a == [] {
      assert a + b == b;
    } else {
      Joined(cfg, Apply(cfg, x, a[0]), a[1..], b);
      assert (a + b)[0] == a[0] && (a + b)[1..] == a[1..] + b;
    }
  }

  lemma Stepped(cfg: Config, x: State, a: seq<Step>, st: Step)
    requires GoodConfig(cfg) && Runs(cfg, x, a) && Enabled(cfg, After(cfg, x, a), st)
    ensures Runs(cfg, x, a + [st]) && After(cfg, x, a + [st]) == Apply(cfg, After(cfg, x, a), st)
  {
    var y := After(cfg, x, a);
    assert [st][1..] == [] && Runs(cfg, y, [st]);
    Joined(cfg, x, a, [st]);
  }

  lemma Begun(cfg: Config, x: State, st: Step, rest: seq<Step>)
    requires GoodConfig(cfg) && Enabled(cfg, x, st) && Runs(cfg, Apply(cfg, x, st), rest)
    ensures Runs(cfg, x, [st] + rest) && After(cfg, x, [st] + rest) == After(cfg, Apply(cfg, x, st), rest)
  {
    assert ([st] + rest)[1..] == rest;
  }

  // -- Every process dies -----------------------------------------------------

  lemma {:induction false} RelaysDie(cfg: Config, x: State) returns (steps: seq<Step>)
    requires GoodConfig(cfg)
    ensures Runs(cfg, x, steps) && After(cfg, x, steps) == x.(o := x.o.(batches := map[]))
    decreases |x.o.batches|
  {
    if x.o.batches == map[] { return []; }
    var b :| b in x.o.batches;
    var y := Apply(cfg, x, Relay(Crash(b)));
    assert y.o.batches.Keys == x.o.batches.Keys - {b};
    var rest := RelaysDie(cfg, y);
    Begun(cfg, x, Relay(Crash(b)), rest);
    steps := [Relay(Crash(b))] + rest;
  }

  lemma {:induction false} TransactionsDie(cfg: Config, x: State) returns (steps: seq<Step>)
    requires GoodConfig(cfg)
    ensures Runs(cfg, x, steps) && After(cfg, x, steps) == x.(o := x.o.(pending := map[]))
    decreases |x.o.pending|
  {
    if x.o.pending == map[] { return []; }
    var tx :| tx in x.o.pending;
    var y := Apply(cfg, x, Relay(Rollback(tx)));
    assert y.o.pending.Keys == x.o.pending.Keys - {tx};
    var rest := TransactionsDie(cfg, y);
    Begun(cfg, x, Relay(Rollback(tx)), rest);
    steps := [Relay(Rollback(tx))] + rest;
  }

  lemma {:induction false} ConsumersDie(cfg: Config, x: State) returns (steps: seq<Step>)
    requires GoodConfig(cfg)
    ensures Runs(cfg, x, steps) && After(cfg, x, steps) == x.(s := x.s.(walks := map[]))
    decreases |x.s.walks|
  {
    if x.s.walks == map[] { return []; }
    var w :| w in x.s.walks;
    var y := Apply(cfg, x, Consume(Stop(w)));
    assert y.s.walks.Keys == x.s.walks.Keys - {w};
    var rest := ConsumersDie(cfg, y);
    Begun(cfg, x, Consume(Stop(w)), rest);
    steps := [Consume(Stop(w))] + rest;
  }

  // -- A relay delivers what is pending ---------------------------------------

  /** What a new relay leaves as it was. */
  ghost predicate RelayOnly(x: State, y: State) {
    y.s == x.s && y.oldest == x.oldest && y.o.committed == x.o.committed && y.o.pending == x.o.pending
    && y.o.table.Keys == x.o.table.Keys && x.log <= y.log && y.o.batches == x.o.batches == map[]
  }

  /** A new relay holds one row of the table, leased to it; `acked` says whether Events has answered for it. */
  ghost predicate InHand(x: State, y: State, id: nat, acked: set<nat>) {
    && y.s == x.s && y.oldest == x.oldest && y.o.committed == x.o.committed && y.o.pending == x.o.pending
    && x.log <= y.log && id in x.o.table && id in y.o.table
    && y.o.table == x.o.table[id := y.o.table[id]] && y.o.table[id] == x.o.table[id].(due := y.o.table[id].due)
    && y.o.batches.Keys == {0} && y.o.batches[0].rows == map[id := x.o.table[id]] && y.o.batches[0].acked == acked
  }

  lemma TakeOne(cfg: Config, x: State, id: nat) returns (steps: seq<Step>)
    requires GoodConfig(cfg) && cfg.batchSize >= 1 && x.o.batches == map[]
    requires id in x.o.table && Pending(x.o.table[id])
    ensures Runs(cfg, x, steps) && InHand(x, After(cfg, x, steps), id, {})
  {
    var d := Max(0, x.o.table[id].due - x.time);
    var (wait, claim) := (Tick(d), Relay(Claim(0, {id})));
    var y := Apply(cfg, x, wait);
    assert Runs(cfg, Apply(cfg, y, claim), []);
    Begun(cfg, y, claim, []);
    Begun(cfg, x, wait, [claim]);
    assert [claim] + [] == [claim];
    steps := [wait] + [claim];
  }

  lemma StoreOne(cfg: Config, x: State, y: State, id: nat) returns (steps: seq<Step>)
    requires GoodConfig(cfg) && InHand(x, y, id, {})
    ensures Runs(cfg, y, steps) && InHand(x, After(cfg, y, steps), id, {})
    ensures x.o.table[id].eventId in After(cfg, y, steps).log
  {
    var e := x.o.table[id].eventId;
    var (send, store) := (Relay(Send(0)), Store(e));
    assert id in y.o.batches[0].rows && y.o.batches[0].rows[id].eventId == e;
    var sent := Apply(cfg, y, send);
    assert Runs(cfg, Apply(cfg, sent, store), []);
    Begun(cfg, sent, store, []);
    assert [store] + [] == [store];
    Begun(cfg, y, send, [store]);
    steps := [send] + [store];
  }

  lemma AckOne(cfg: Config, x: State, y: State, id: nat)
    requires GoodConfig(cfg) && InHand(x, y, id, {}) && x.o.table[id].eventId in y.log
    ensures Enabled(cfg, y, Relay(Ack(0, {id}))) && InHand(x, Apply(cfg, y, Relay(Ack(0, {id}))), id, {id})
  {
    assert y.o.batches[0].rows[id] == x.o.table[id];
  }

  lemma MarkOne(cfg: Config, x: State, y: State, id: nat)
    requires GoodConfig(cfg) && InHand(x, y, id, {id}) && x.o.batches == map[] && Pending(x.o.table[id])
    ensures Enabled(cfg, y, Relay(Mark(0, {id})))
    ensures
      var z := Apply(cfg, y, Relay(Mark(0, {id})));
      RelayOnly(x, z) && PendingIds(z.o.table) == PendingIds(x.o.table) - {id}
  {
    MarkIs(cfg, y, 0, {id});
    var z := Apply(cfg, y, Relay(Mark(0, {id})));
    assert z.o.batches == map[];
  }

  /** One pending row: claimed once it is due, sent, stored, answered for and marked. */
  lemma Deliver(cfg: Config, x: State, id: nat) returns (steps: seq<Step>)
    requires GoodConfig(cfg) && cfg.batchSize >= 1 && x.o.batches == map[]
    requires id in x.o.table && Pending(x.o.table[id])
    ensures Runs(cfg, x, steps)
    ensures
      var y := After(cfg, x, steps);
      RelayOnly(x, y) && PendingIds(y.o.table) == PendingIds(x.o.table) - {id}
  {
    steps := TakeOne(cfg, x, id);
    var store := StoreOne(cfg, x, After(cfg, x, steps), id);
    Joined(cfg, x, steps, store);
    steps := steps + store;
    AckOne(cfg, x, After(cfg, x, steps), id);
    Stepped(cfg, x, steps, Relay(Ack(0, {id})));
    steps := steps + [Relay(Ack(0, {id}))];
    MarkOne(cfg, x, After(cfg, x, steps), id);
    Stepped(cfg, x, steps, Relay(Mark(0, {id})));
    steps := steps + [Relay(Mark(0, {id}))];
  }

  lemma {:induction false} DeliverAll(cfg: Config, x: State) returns (steps: seq<Step>)
    requires GoodConfig(cfg) && cfg.batchSize >= 1 && x.o.batches == map[]
    ensures Runs(cfg, x, steps)
    ensures var y := After(cfg, x, steps); RelayOnly(x, y) && PendingIds(y.o.table) == {}
    decreases |PendingIds(x.o.table)|
  {
    if PendingIds(x.o.table) == {} { return []; }
    var id :| id in PendingIds(x.o.table);
    var first := Deliver(cfg, x, id);
    var rest := DeliverAll(cfg, After(cfg, x, first));
    Joined(cfg, x, first, rest);
    steps := first + rest;
  }

  // -- A consumer walks to the end of the log ---------------------------------

  /** What a consumer at work leaves as it was. */
  ghost predicate ConsumerOnly(x: State, y: State) {
    y.o == x.o && y.log == x.log && y.oldest == x.oldest && y.time == x.time && y.s.joined == x.s.joined
  }

  lemma {:induction false} HandlePage(cfg: Config, x: State, w: nat) returns (steps: seq<Step>)
    requires GoodConfig(cfg) && w in x.s.walks && x.s.walks[w].at <= x.s.walks[w].next <= |x.log|
    ensures Runs(cfg, x, steps)
    ensures
      var (y, k) := (After(cfg, x, steps), x.s.walks[w]);
      ConsumerOnly(x, y) && y.s.saved == x.s.saved && y.s.walks == x.s.walks[w := k.(at := k.next)]
    decreases x.s.walks[w].next - x.s.walks[w].at
  {
    if x.s.walks[w].at == x.s.walks[w].next { return []; }
    var y := Apply(cfg, x, Consume(Handle(w)));
    var rest := HandlePage(cfg, y, w);
    Begun(cfg, x, Consume(Handle(w)), rest);
    steps := [Consume(Handle(w))] + rest;
  }

  /** Pages that follow on from `from`, none past the end of the log. */
  ghost predicate Cuts(ends: seq<nat>, from: nat, to: nat)
    decreases |ends|
  {
    if ends == [] then from == to else from <= ends[0] && Cuts(ends[1..], ends[0], to)
  }

  lemma {:induction false} CutsRise(ends: seq<nat>, from: nat, to: nat)
    requires Cuts(ends, from, to)
    ensures from <= to
    decreases |ends|
  {
    if ends != [] { CutsRise(ends[1..], ends[0], to); }
  }

  /** A page handled to its end, and its end saved. */
  lemma SavePage(cfg: Config, x: State, w: nat) returns (steps: seq<Step>)
    requires GoodConfig(cfg) && w in x.s.walks && x.s.walks[w].at <= x.s.walks[w].next <= |x.log|
    ensures Runs(cfg, x, steps)
    ensures
      var (y, k) := (After(cfg, x, steps), x.s.walks[w]);
      ConsumerOnly(x, y) && y.s.saved == x.s.saved[k.consumer := k.next]
        && y.s.walks == x.s.walks[w := k.(at := k.next)]
  {
    steps := HandlePage(cfg, x, w);
    Stepped(cfg, x, steps, Consume(Save(w)));
    steps := steps + [Consume(Save(w))];
  }

  /** A walk with a page in hand handles it, saves its end, and goes on page by page. */
  lemma {:induction false} WalkOn(cfg: Config, x: State, w: nat, ends: seq<nat>) returns (steps: seq<Step>)
    requires GoodConfig(cfg) && w in x.s.walks && x.s.walks[w].at <= x.s.walks[w].next <= |x.log|
    requires x.oldest <= x.s.walks[w].next && Cuts(ends, x.s.walks[w].next, |x.log|)
    ensures Runs(cfg, x, steps) && WalkedOn(x, After(cfg, x, steps), w)
    decreases |ends|
  {
    steps := SavePage(cfg, x, w);
    if ends != [] {
      CutsRise(ends[1..], ends[0], |x.log|);
      Stepped(cfg, x, steps, Consume(Page(w, ends[0])));
      steps := steps + [Consume(Page(w, ends[0]))];
      var rest := WalkOn(cfg, After(cfg, x, steps), w, ends[1..]);
      Joined(cfg, x, steps, rest);
      steps := steps + rest;
    }
  }

  ghost predicate WalkedOn(x: State, y: State, w: nat)
    requires w in x.s.walks
  {
    ConsumerOnly(x, y) && y.s.saved == x.s.saved[x.s.walks[w].consumer := |x.log|] && w in y.s.walks
      && y.s.walks - {w} == x.s.walks - {w}
  }

  /** A new walk of a consumer, whatever pages Events answers, ends with the cursor at the end of the log. */
  lemma CatchUp(cfg: Config, x: State, c: string, first: nat, ends: seq<nat>) returns (steps: seq<Step>)
    requires GoodConfig(cfg) && c in x.s.saved && x.s.walks == map[]
    requires Max(x.s.saved[c], x.oldest) <= first && Cuts(ends, first, |x.log|)
    ensures Runs(cfg, x, steps)
    ensures
      var y := After(cfg, x, steps);
      ConsumerOnly(x, y) && y.s.saved == x.s.saved[c := |x.log|] && y.s.walks == map[]
  {
    CutsRise(ends, first, |x.log|);
    var y := Apply(cfg, x, Consume(Start(0, c, first)));
    var walk := WalkOn(cfg, y, 0, ends);
    Begun(cfg, x, Consume(Start(0, c, first)), walk);
    steps := [Consume(Start(0, c, first))] + walk;
    Stepped(cfg, x, steps, Consume(Stop(0)));
    steps := steps + [Consume(Stop(0))];
  }

  lemma {:induction false} AllCatchUp(cfg: Config, x: State, left: set<string>) returns (steps: seq<Step>)
    requires GoodConfig(cfg) && left <= x.s.saved.Keys && x.s.walks == map[] && Inv(cfg, x)
    requires forall c :: c in x.s.saved && c !in left ==> x.s.saved[c] == |x.log|
    ensures Runs(cfg, x, steps)
    ensures
      var y := After(cfg, x, steps);
      ConsumerOnly(x, y) && y.s.saved.Keys == x.s.saved.Keys && y.s.walks == map[]
      && forall c :: c in y.s.saved ==> y.s.saved[c] == |y.log|
    decreases |left|
  {
    if left == {} { return []; }
    var c :| c in left;
    assert DoneUpTo(cfg, x.s, x.log, c, x.s.saved[c]);
    var one := CatchUp(cfg, x, c, |x.log|, []);
    RunKeeps(cfg, x, one);
    var rest := AllCatchUp(cfg, After(cfg, x, one), left - {c});
    Joined(cfg, x, one, rest);
    steps := one + rest;
  }

  // -- From every state -------------------------------------------------------

  /**
   * Nothing is in flight, every committed event is held by Events or was refused by it for good, and every consumer
   * has had the effect of each event that it wants and that it was not too late for.
   */
  ghost predicate AllDone(cfg: Config, x: State) {
    && x.o.pending == map[] && x.o.batches == map[] && x.s.walks == map[]
    && (forall e :: e in x.o.committed ==>
          e in x.log || exists id :: id in x.o.table && x.o.table[id].eventId == e && x.o.table[id].rejectedAt.Some?)
    && (forall c, p :: c in x.s.joined && Max(x.oldest, x.s.joined[c]) <= p < |x.log| && cfg.wants(c, x.log[p]) ==>
          (c, x.log[p]) in x.s.effects)
  }

  /** What is to be delivered, and to whom. */
  ghost predicate SameDemand(x: State, y: State) {
    y.o.committed == x.o.committed && x.log <= y.log && y.oldest == x.oldest && y.s.joined == x.s.joined
  }

  /** A run that leads from x to where all that was committed by then is delivered. */
  ghost predicate Finishes(cfg: Config, x: State, more: seq<Step>)
    requires GoodConfig(cfg)
  {
    Runs(cfg, x, more) && SameDemand(x, After(cfg, x, more)) && AllDone(cfg, After(cfg, x, more))
  }

  lemma DoneWhenCaughtUp(cfg: Config, x: State)
    requires GoodConfig(cfg) && Inv(cfg, x) && Tidy(cfg, x) && PendingIds(x.o.table) == {}
    requires x.o.pending == map[] && x.o.batches == map[] && x.s.walks == map[]
    requires forall c :: c in x.s.saved ==> x.s.saved[c] == |x.log|
    ensures AllDone(cfg, x)
  {
    forall e | e in x.o.committed && e !in x.log
      ensures exists id :: id in x.o.table && x.o.table[id].eventId == e && x.o.table[id].rejectedAt.Some?
    {
      var id :| id in x.o.table && x.o.table[id].eventId == e;
      assert id !in PendingIds(x.o.table);
    }
    forall c, p | c in x.s.joined && Max(x.oldest, x.s.joined[c]) <= p < |x.log| && cfg.wants(c, x.log[p])
      ensures (c, x.log[p]) in x.s.effects
    {
      assert DoneUpTo(cfg, x.s, x.log, c, x.s.saved[c]) && (c, p) !in x.s.missed;
    }
  }

  /** Every process dies, and a new relay delivers what is pending. */
  lemma RelaysFinish(cfg: Config, x: State) returns (more: seq<Step>)
    requires GoodConfig(cfg) && cfg.batchSize >= 1
    ensures Runs(cfg, x, more)
    ensures
      var y := After(cfg, x, more);
      SameDemand(x, y) && PendingIds(y.o.table) == {}
        && y.o.pending == map[] && y.o.batches == map[] && y.s.walks == map[]
  {
    more := RelaysDie(cfg, x);
    var stop := ConsumersDie(cfg, After(cfg, x, more));
    Joined(cfg, x, more, stop);
    more := more + stop;
    var undo := TransactionsDie(cfg, After(cfg, x, more));
    Joined(cfg, x, more, undo);
    more := more + undo;
    var deliver := DeliverAll(cfg, After(cfg, x, more));
    Joined(cfg, x, more, deliver);
    more := more + deliver;
  }

  lemma ConsumersFinish(cfg: Config, x: State) returns (more: seq<Step>)
    requires GoodConfig(cfg) && Inv(cfg, x) && Tidy(cfg, x) && PendingIds(x.o.table) == {}
    requires x.o.pending == map[] && x.o.batches == map[] && x.s.walks == map[]
    ensures Runs(cfg, x, more) && SameDemand(x, After(cfg, x, more)) && AllDone(cfg, After(cfg, x, more))
  {
    more := AllCatchUp(cfg, x, x.s.saved.Keys);
    TidyOverRun(cfg, x, more);
    DoneWhenCaughtUp(cfg, After(cfg, x, more));
  }

  ghost predicate CanFinish(cfg: Config, x: State)
    requires GoodConfig(cfg)
  {
    exists more :: Finishes(cfg, x, more)
  }

  lemma FinishFrom(cfg: Config, x: State)
    requires GoodConfig(cfg) && cfg.batchSize >= 1 && Inv(cfg, x) && Tidy(cfg, x)
    ensures CanFinish(cfg, x)
  {
    var relay := RelaysFinish(cfg, x);
    TidyOverRun(cfg, x, relay);
    var y := After(cfg, x, relay);
    var walk := ConsumersFinish(cfg, y);
    Joined(cfg, x, relay, walk);
    Further(x, y, After(cfg, x, relay + walk));
    assert Finishes(cfg, x, relay + walk);
  }

  lemma Further(x: State, y: State, z: State)
    requires SameDemand(x, y) && SameDemand(y, z)
    ensures SameDemand(x, z)
  {
    assert x.log <= y.log <= z.log;
  }

  /**
   * No state is a dead end. Whatever happened so far, though every transaction, relay and consumer now dies, a run
   * leads on to where everything committed is delivered.
   */
  lemma Recovers(cfg: Config, steps: seq<Step>)
    requires GoodConfig(cfg) && cfg.batchSize >= 1 && Runs(cfg, START, steps)
    ensures CanFinish(cfg, After(cfg, START, steps))
  {
    InvAndTidy(cfg, steps);
    FinishFrom(cfg, After(cfg, START, steps));
  }

  lemma InvAndTidy(cfg: Config, steps: seq<Step>)
    requires GoodConfig(cfg) && Runs(cfg, START, steps)
    ensures Inv(cfg, After(cfg, START, steps)) && Tidy(cfg, After(cfg, START, steps))
  {
    TidyOverRun(cfg, START, steps);
  }

  /** A consumer may join at any position of the log, the end included, and then gets what it wants from there on. */
  lemma JoinsAnywhere(cfg: Config, steps: seq<Step>, c: string, from: nat, first: nat, ends: seq<nat>)
    requires GoodConfig(cfg) && Runs(cfg, START, steps)
    requires var x := After(cfg, START, steps);
             c !in x.s.joined && from <= |x.log| && Max(from, x.oldest) <= first && Cuts(ends, first, |x.log|)
    ensures
      var x := After(cfg, START, steps);
      exists more :: JoinsAt(cfg, x, more, c, from)
  {
    var x := After(cfg, START, steps);
    InvAndTidy(cfg, steps);
    var more := ConsumersDie(cfg, x);
    Stepped(cfg, x, more, Consume(Join(c, from)));
    more := more + [Consume(Join(c, from))];
    var walk := CatchUp(cfg, After(cfg, x, more), c, first, ends);
    Joined(cfg, x, more, walk);
    more := more + walk;
    TidyOverRun(cfg, x, more);
    CaughtUpWhen(cfg, x, After(cfg, x, more), c, from);
    assert JoinsAt(cfg, x, more, c, from);
  }

  ghost predicate JoinsAt(cfg: Config, x: State, more: seq<Step>, c: string, from: nat)
    requires GoodConfig(cfg)
  {
    Runs(cfg, x, more) && CaughtUp(cfg, x, After(cfg, x, more), c, from)
  }

  lemma CaughtUpWhen(cfg: Config, x: State, y: State, c: string, from: nat)
    requires Inv(cfg, y) && y.o == x.o && y.log == x.log && y.oldest == x.oldest
    requires c in y.s.joined && y.s.joined[c] == from && c in y.s.saved && y.s.saved[c] == |y.log|
    ensures CaughtUp(cfg, x, y, c, from)
  {
    assert DoneUpTo(cfg, y.s, y.log, c, y.s.saved[c]);
  }

  ghost predicate CaughtUp(cfg: Config, x: State, y: State, c: string, from: nat) {
    && y.o == x.o && y.log == x.log && y.oldest == x.oldest
    && c in y.s.joined && y.s.joined[c] == from && c in y.s.saved && y.s.saved[c] == |y.log|
    && forall p :: Max(y.oldest, from) <= p < |y.log| && cfg.wants(c, y.log[p]) ==> (c, y.log[p]) in y.s.effects
  }
}
