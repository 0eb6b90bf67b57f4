/**
 * The durable event pipeline end to end (src/outbox.js, src/events.js): producers commit a change together with
 * its outbox row; any number of relays claim rows under leases, publish them and mark them; Events stores an
 * event id once; consumers walk the log page by page, handle each item in one transaction with its receipt, and
 * save a cursor only after a page is handled. Every process may crash between any two steps, publishes may arrive
 * late or twice, and events may be delivered again.
 *
 * A step is one database statement, one request reaching Events, or one handler transaction. A position in the log
 * stands for an opaque cursor.
 */
module Pipeline {
  import opened Prelude
  import opened Outbox

  /** The settings, and which events a consumer's topics match. */
  datatype Config = Config(leaseMs: int, backoffMs: seq<int>, batchSize: nat, wants: (string, string) -> bool)

  ghost predicate GoodConfig(cfg: Config) { cfg.leaseMs > 0 && cfg.backoffMs != [] }

  // -- Producers and relays ---------------------------------------------------

  /** A claimed batch in a relay's memory: the rows as they were claimed, when, and which Events has answered for. */
  datatype Claimed = Claimed(rows: Table, at: int, acked: set<nat>)

  /**
   * `pending` are the open transactions; `committed` the events whose transaction committed; `wire` what was ever sent.
   * A transaction cannot write an event id that has a row, or that another open one writes (it is unique), but once the
   * row is pruned the id can be written again.
   */
  datatype Producers = Producers(pending: map<nat, string>, committed: set<string>, table: Table, nextId: nat,
                                 batches: map<nat, Claimed>, wire: set<string>)

  datatype RelayStep =
    | Begin(tx: nat, event: string)
    | Commit(tx: nat)
    | Rollback(tx: nat)
    | Claim(b: nat, ids: set<nat>)
    | Send(b: nat)
    | Ack(b: nat, ids: set<nat>)
    | Mark(b: nat, ids: set<nat>)
    | Fail(b: nat, id: nat, permanent: bool)
    | Crash(b: nat)
    | Prune(before: int)

  ghost predicate RelayEnabled(cfg: Config, o: Producers, log: seq<string>, time: int, st: RelayStep) {
    match st
    case Begin(tx, e) => tx !in o.pending && e !in o.pending.Values
        && forall id :: id in o.table ==> o.table[id].eventId != e
    case Commit(tx) => tx in o.pending
    case Rollback(tx) => tx in o.pending
    case Claim(b, ids) =>
      b !in o.batches && ids != {} && |ids| <= cfg.batchSize && forall id :: id in ids ==>
        id in o.table && Due(o.table[id], time)
    case Send(b) => b in o.batches
    case Ack(b, ids) => b in o.batches && ids <= o.batches[b].rows.Keys
                        && forall id :: id in ids ==> o.batches[b].rows[id].eventId in log
    case Mark(b, ids) => b in o.batches && ids <= o.batches[b].acked
    case Fail(b, id, _) => b in o.batches && id in o.batches[b].rows
    case Crash(b) => b in o.batches
    case Prune(_) => true
  }

  /** The batch without the rows that are settled. */
  function Drop(c: Claimed, ids: set<nat>): Claimed { c.(rows := c.rows - ids, acked := c.acked - ids) }

  /** The relay is done with a batch once its last row is settled. */
  function Finish(batches: map<nat, Claimed>, b: nat, ids: set<nat>): map<nat, Claimed>
    requires b in batches
  {
    var c := Drop(batches[b], ids);
    if c.rows.Keys == {} then batches - {b} else batches[b := c]
  }

  function MarkedSent(table: Table, ids: set<nat>, t: int): Table {
    map id | id in table :: if id in ids then Sent(table[id], t) else table[id]
  }

  /** A failed row; the backoff is that of the attempts read when the row was claimed. */
  function MarkedFailed(table: Table, id: nat, permanent: bool, attempts: nat, t: int, backoffMs: seq<int>): Table
    requires backoffMs != []
  {
    if id !in table then table
    else table[id := if permanent then Rejected(table[id], t) else Retried(table[id], t + Backoff(backoffMs, attempts))]
  }

  ghost function RelayApply(cfg: Config, o: Producers, log: seq<string>, time: int, st: RelayStep): Producers
    requires GoodConfig(cfg) && RelayEnabled(cfg, o, log, time, st)
  {
    match st
    case Begin(tx, e) => o.(pending := o.pending[tx := e])
    case Commit(tx) =>
      o.(pending := o.pending - {tx}, committed := o.committed + {o.pending[tx]},
         table := o.table[o.nextId := NewRow(o.pending[tx])], nextId := o.nextId + 1)
    case Rollback(tx) => o.(pending := o.pending - {tx})
    case Claim(b, ids) =>
      o.(table := map id | id in o.table :: if id in ids then Leased(o.table[id], time + cfg.leaseMs) else o.table[id],
         batches := o.batches[b := Claimed(map id | id in ids :: o.table[id], time, {})])
    case Send(b) => o.(wire := o.wire + set id | id in o.batches[b].rows :: o.batches[b].rows[id].eventId)
    case Ack(b, ids) => o.(batches := o.batches[b := o.batches[b].(acked := o.batches[b].acked + ids)])
    case Mark(b, ids) => o.(table := MarkedSent(o.table, ids, time), batches := Finish(o.batches, b, ids))
    case Fail(b, id, permanent) =>
      o.(table := MarkedFailed(o.table, id, permanent, o.batches[b].rows[id].attempts, time, cfg.backoffMs),
         batches := Finish(o.batches, b, {id}))
    case Crash(b) => o.(batches := o.batches - {b})
    case Prune(before) => o.(table := map id | id in o.table
        && !(o.table[id].sentAt.Some? && o.table[id].sentAt.value < before) :: o.table[id])
  }

  // -- Consumers --------------------------------------------------------------

  /** A walk of one consumer process: it holds the page that ends at `next`, and `at` is the next position to handle. */
  datatype Walk = Walk(consumer: string, next: nat, at: nat)

  /**
   * `joined` is where a consumer's first walk starts; `missed` are the positions it was told it cannot have: before
   * it joined, or pruned by retention (a gap).
   */
  datatype Consumers = Consumers(joined: map<string, nat>, saved: map<string, nat>, walks: map<nat, Walk>,
      missed: set<(string, nat)>,
                                 receipts: set<(string, string)>, effects: seq<(string, string)>)

  datatype ConsumeStep =
    | Join(c: string, from: nat)
    | Start(w: nat, c: string, next: nat)
    | Page(w: nat, next: nat)
    | Handle(w: nat)
    | Save(w: nat)
    | Stop(w: nat)
    | Redeliver(c: string, event: string)

  predicate ConsumeEnabled(s: Consumers, log: seq<string>, oldest: nat, st: ConsumeStep) {
    match st
    case Join(c, from) => c !in s.joined && from <= |log|
    case Start(w, c, next) => w !in s.walks && c in s.saved && Max(s.saved[c], oldest) <= next <= |log|
    case Page(w, next) => w in s.walks && s.walks[w].at == s.walks[w].next
        && Max(s.walks[w].at, oldest) <= next <= |log|
    case Handle(w) => w in s.walks && s.walks[w].at < s.walks[w].next <= |log|
    case Save(w) => w in s.walks && s.walks[w].at == s.walks[w].next
    case Stop(w) => w in s.walks
    case Redeliver(c, e) => e in log
  }

  /** inbox.once: the receipt and the effect in one transaction, or neither when the receipt is already there. */
  function Once(s: Consumers, c: string, e: string): Consumers {
    if (c, e) in s.receipts then s else s.(receipts := s.receipts + {(c, e)}, effects := s.effects + [(c, e)])
  }

  function Positions(c: string, from: nat, to: nat): set<(string, nat)> {
    set p: nat | from <= p < to :: (c, p)
  }

  /** A page fetched at a cursor: retention may have pruned the start of the range, which is then reported. */
  function Fetch(s: Consumers, w: nat, c: string, cursor: nat, next: nat, oldest: nat): Consumers {
    s.(walks := s.walks[w := Walk(c, next, Max(cursor, oldest))], missed := s.missed + Positions(c, cursor, oldest))
  }

  function ConsumeApply(cfg: Config, s: Consumers, log: seq<string>, oldest: nat, st: ConsumeStep): Consumers
    requires ConsumeEnabled(s, log, oldest, st)
  {
    match st
    case Join(c, from) => s.(joined := s.joined[c := from], saved := s.saved[c := from],
        missed := s.missed + Positions(c, 0, from))
    case Start(w, c, next) => Fetch(s, w, c, s.saved[c], next, oldest)
    case Page(w, next) => Fetch(s, w, s.walks[w].consumer, s.walks[w].at, next, oldest)
    case Handle(w) =>
      var k := s.walks[w];
      var e := log[k.at];
      (if cfg.wants(k.consumer, e) then Once(s, k.consumer, e) else s).(walks := s.walks[w := k.(at := k.at + 1)])
    case Save(w) => s.(saved := s.saved[s.walks[w].consumer := s.walks[w].next])
    case Stop(w) => s.(walks := s.walks - {w})
    case Redeliver(c, e) => Once(s, c, e)
  }

  // -- The whole system -------------------------------------------------------

  datatype State = State(time: int, o: Producers, log: seq<string>, oldest: nat, s: Consumers)

  const START: State := State(0, Producers(map[], {}, map[], 0, map[], {}), [], 0,
      Consumers(map[], map[], map[], {}, {}, []))

  /** Store is a publish reaching Events, at any time after it was sent and as often as it likes. */
  datatype Step =
    Tick(d: nat) | Relay(r: RelayStep) | Store(event: string) | Retain(oldest: nat) | Consume(k: ConsumeStep)

  ghost predicate Enabled(cfg: Config, x: State, st: Step) {
    match st
    case Tick(_) => true
    case Relay(r) => RelayEnabled(cfg, x.o, x.log, x.time, r)
    case Store(e) => e in x.o.wire
    case Retain(n) => x.oldest <= n <= |x.log|
    case Consume(k) => ConsumeEnabled(x.s, x.log, x.oldest, k)
  }

  ghost function Apply(cfg: Config, x: State, st: Step): State
    requires GoodConfig(cfg) && Enabled(cfg, x, st)
  {
    match st
    case Tick(d) => x.(time := x.time + d)
    case Relay(r) => x.(o := RelayApply(cfg, x.o, x.log, x.time, r))
    case Store(e) => if e in x.log then x else x.(log := x.log + [e])
    case Retain(n) => x.(oldest := n)
    case Consume(k) => x.(s := ConsumeApply(cfg, x.s, x.log, x.oldest, k))
  }

  ghost predicate Runs(cfg: Config, x: State, steps: seq<Step>)
    requires GoodConfig(cfg)
    decreases |steps|
  {
    steps == [] || (Enabled(cfg, x, steps[0]) && Runs(cfg, Apply(cfg, x, steps[0]), steps[1..]))
  }

  ghost function After(cfg: Config, x: State, steps: seq<Step>): State
    requires GoodConfig(cfg) && Runs(cfg, x, steps)
    decreases |steps|
  {
    if steps == [] then x else After(cfg, Apply(cfg, x, steps[0]), steps[1..])
  }

  // -- Producers and relays: what every step keeps ----------------------------

  /** Everything that travels comes from a committed row; a row answered for or marked sent is in the log. */
  ghost predicate Sourced(o: Producers, log: seq<string>) {
    SourcedRows(o, log) && forall b :: b in o.batches ==> SourcedBatch(o, log, o.batches[b])
  }

  ghost predicate SourcedRows(o: Producers, log: seq<string>) {
    && (forall e :: e in log ==> e in o.wire)
    && o.wire <= o.committed
    && (forall id :: id in o.table ==> id < o.nextId && o.table[id].eventId in o.committed)
    && (forall id :: id in o.table && o.table[id].sentAt.Some? ==> o.table[id].eventId in log)
  }

  ghost predicate SourcedBatch(o: Producers, log: seq<string>, c: Claimed) {
    && c.acked <= c.rows.Keys
    && (forall id :: id in c.rows ==> id < o.nextId && c.rows[id].eventId in o.committed)
    && (forall id :: id in c.rows && id in o.table ==> o.table[id].eventId == c.rows[id].eventId)
    && (forall id :: id in c.acked ==> c.rows[id].eventId in log)
  }

  /** No committed event is lost: Events has it, or its row is still there. */
  ghost predicate NothingLost(o: Producers, log: seq<string>) {
    forall e :: e in o.committed ==> e in log || exists id :: id in o.table && o.table[id].eventId == e
  }

  lemma SourcedKept(cfg: Config, o: Producers, log: seq<string>, time: int, st: RelayStep)
    requires GoodConfig(cfg) && RelayEnabled(cfg, o, log, time, st) && Sourced(o, log)
    ensures Sourced(RelayApply(cfg, o, log, time, st), log)
  {
    SourcedRowsKept(cfg, o, log, time, st);
    SourcedBatchesKept(cfg, o, log, time, st);
  }

  lemma SourcedRowsKept(cfg: Config, o: Producers, log: seq<string>, time: int, st: RelayStep)
    requires GoodConfig(cfg) && RelayEnabled(cfg, o, log, time, st) && Sourced(o, log)
    ensures SourcedRows(RelayApply(cfg, o, log, time, st), log)
  {
    assert forall b :: b in o.batches ==> SourcedBatch(o, log, o.batches[b]);
  }

  /** Settling rows of a batch keeps what the batches hold sourced. */
  lemma SettleKeepsSourced(o: Producers, o': Producers, log: seq<string>, b: nat, ids: set<nat>)
    requires b in o.batches && o'.batches == Finish(o.batches, b, ids)
    requires o'.nextId == o.nextId && o'.committed == o.committed && o'.table.Keys == o.table.Keys
    requires forall id :: id in o.table ==> o'.table[id].eventId == o.table[id].eventId
    requires forall d :: d in o.batches ==> SourcedBatch(o, log, o.batches[d])
    ensures forall d :: d in o'.batches ==> SourcedBatch(o', log, o'.batches[d])
  {
    forall d | d in o'.batches ensures SourcedBatch(o', log, o'.batches[d]) {
      assert SourcedBatch(o, log, o.batches[d]);
    }
  }

  lemma SourcedBatchesKept(cfg: Config, o: Producers, log: seq<string>, time: int, st: RelayStep)
    requires GoodConfig(cfg) && RelayEnabled(cfg, o, log, time, st) && Sourced(o, log)
    ensures
      var o' := RelayApply(cfg, o, log, time, st);
      forall b :: b in o'.batches ==> SourcedBatch(o', log, o'.batches[b])
  {
    var o' := RelayApply(cfg, o, log, time, st);
    match st {
      case Mark(b, ids) => SettleKeepsSourced(o, o', log, b, ids);
      case Fail(b, id, _) => SettleKeepsSourced(o, o', log, b, {id});
      case _ => OtherKeepsSourced(cfg, o, log, time, st);
    }
  }

  lemma OtherKeepsSourced(cfg: Config, o: Producers, log: seq<string>, time: int, st: RelayStep)
    requires GoodConfig(cfg) && RelayEnabled(cfg, o, log, time, st) && Sourced(o, log) && !st.Mark? && !st.Fail?
    ensures
      var o' := RelayApply(cfg, o, log, time, st);
      forall b :: b in o'.batches ==> SourcedBatch(o', log, o'.batches[b])
  {
    var o' := RelayApply(cfg, o, log, time, st);
    forall b | b in o'.batches ensures SourcedBatch(o', log, o'.batches[b]) {
      assert b in o.batches ==> SourcedBatch(o, log, o.batches[b]);
    }
  }

  lemma NothingLostKept(cfg: Config, o: Producers, log: seq<string>, time: int, st: RelayStep)
    requires GoodConfig(cfg) && RelayEnabled(cfg, o, log, time, st) && Sourced(o, log) && NothingLost(o, log)
    ensures NothingLost(RelayApply(cfg, o, log, time, st), log)
  {
    var o' := RelayApply(cfg, o, log, time, st);
    forall e | e in o'.committed && e !in log ensures exists id :: id in o'.table && o'.table[id].eventId == e {
      if e in o.committed {
        var id :| id in o.table && o.table[id].eventId == e;
        assert id in o'.table && o'.table[id].eventId == e;
      } else {
        assert o.nextId in o'.table;
      }
    }
  }

  // -- Consumers: what every step keeps ---------------------------------------

  /** Every event before position n that consumer c wants has had its effect, or is a position c was told it missed. */
  ghost predicate DoneUpTo(cfg: Config, s: Consumers, log: seq<string>, c: string, n: nat) {
    n <= |log| && forall p :: 0 <= p < n && cfg.wants(c, log[p]) ==> (c, log[p]) in s.receipts || (c, p) in s.missed
  }

  ghost predicate Exact(s: Consumers, log: seq<string>) {
    && (forall ce :: ce in s.receipts <==> ce in s.effects)
    && Distinct(s.effects)
    && (forall ce :: ce in s.receipts ==> ce.1 in log)
  }

  ghost predicate Complete(cfg: Config, s: Consumers, log: seq<string>) {
    && (forall c :: c in s.saved ==> DoneUpTo(cfg, s, log, c, s.saved[c]))
    && (forall w :: w in s.walks ==>
          s.walks[w].at <= s.walks[w].next <= |log| && DoneUpTo(cfg, s, log, s.walks[w].consumer, s.walks[w].at))
  }

  /** A position is missed only before the consumer joined, or where retention has pruned it. */
  ghost predicate Excused(s: Consumers, oldest: nat) {
    forall c, p :: (c, p) in s.missed ==> p < oldest || (c in s.joined && p < s.joined[c])
  }

  lemma ExcusedKept(cfg: Config, s: Consumers, log: seq<string>, oldest: nat, st: ConsumeStep)
    requires ConsumeEnabled(s, log, oldest, st) && Excused(s, oldest)
    ensures Excused(ConsumeApply(cfg, s, log, oldest, st), oldest)
  {
  }

  lemma ExactKept(cfg: Config, s: Consumers, log: seq<string>, oldest: nat, st: ConsumeStep)
    requires ConsumeEnabled(s, log, oldest, st) && Exact(s, log)
    ensures Exact(ConsumeApply(cfg, s, log, oldest, st), log)
  {
    if st.Handle? {
      var k := s.walks[st.w];
      OnceKeepsExact(s, log, k.consumer, log[k.at]);
    } else if st.Redeliver? {
      OnceKeepsExact(s, log, st.c, st.event);
    }
  }

  lemma OnceKeepsExact(s: Consumers, log: seq<string>, c: string, e: string)
    requires Exact(s, log) && e in log
    ensures Exact(Once(s, c, e), log) && (c, e) in Once(s, c, e).receipts && s.receipts <= Once(s, c, e).receipts
  {
    var s' := Once(s, c, e);
    if (c, e) !in s.receipts {
      assert s'.effects[|s.effects|] == (c, e);
      forall ce ensures ce in s'.effects <==> ce in s.effects || ce == (c, e) {}
      forall i, j | 0 <= i < j < |s'.effects| ensures s'.effects[i] != s'.effects[j] {
        if j == |s.effects| { assert s.effects[i] in s.effects; }
      }
    }
  }

  /** Receipts and missed positions only grow, and so does the log; then what is done stays done. */
  lemma DoneKept(cfg: Config, s: Consumers, s': Consumers, log: seq<string>, log': seq<string>, c: string, n: nat)
    requires DoneUpTo(cfg, s, log, c, n) && s.receipts <= s'.receipts && s.missed <= s'.missed && log <= log'
    ensures DoneUpTo(cfg, s', log', c, n)
  {
    forall p | 0 <= p < n && cfg.wants(c, log'[p]) ensures (c, log'[p]) in s'.receipts || (c, p) in s'.missed {
      assert log'[p] == log[p];
    }
  }

  lemma Grows(cfg: Config, s: Consumers, log: seq<string>, oldest: nat, st: ConsumeStep)
    requires ConsumeEnabled(s, log, oldest, st)
    ensures var s' := ConsumeApply(cfg, s, log, oldest, st); s.receipts <= s'.receipts && s.missed <= s'.missed
  {
  }

  /** A page fetched at a cursor that is done up to there starts done: what retention pruned is reported. */
  lemma FetchDone(cfg: Config, s: Consumers, s': Consumers, log: seq<string>, c: string, cursor: nat, oldest: nat)
    requires DoneUpTo(cfg, s, log, c, cursor) && oldest <= |log|
    requires s.receipts <= s'.receipts && s.missed + Positions(c, cursor, oldest) <= s'.missed
    ensures DoneUpTo(cfg, s', log, c, Max(cursor, oldest))
  {
    forall p | 0 <= p < Max(cursor, oldest) && cfg.wants(c, log[p])
      ensures (c, log[p]) in s'.receipts || (c, p) in s'.missed
    {
      if p >= cursor { assert (c, p) in Positions(c, cursor, oldest); }
    }
  }

  lemma StepDone(cfg: Config, s: Consumers, log: seq<string>, oldest: nat, st: ConsumeStep)
    requires ConsumeEnabled(s, log, oldest, st) && Complete(cfg, s, log) && oldest <= |log|
    ensures var s' := ConsumeApply(cfg, s, log, oldest, st);
            && (st.Join? ==> DoneUpTo(cfg, s', log, st.c, st.from))
            && (st.Start? ==> DoneUpTo(cfg, s', log, st.c, s'.walks[st.w].at))
            && (st.Page? ==> DoneUpTo(cfg, s', log, s.walks[st.w].consumer, s'.walks[st.w].at))
            && (st.Handle? ==> DoneUpTo(cfg, s', log, s.walks[st.w].consumer, s'.walks[st.w].at))
  {
    var s' := ConsumeApply(cfg, s, log, oldest, st);
    Grows(cfg, s, log, oldest, st);
    match st {
      case Join(c, from) =>
        forall p | 0 <= p < from && cfg.wants(c, log[p]) ensures (c, p) in s'.missed {
          assert (c, p) in Positions(c, 0, from);
        }
      case Start(w, c, next) => FetchDone(cfg, s, s', log, c, s.saved[c], oldest);
      case Page(w, next) => FetchDone(cfg, s, s', log, s.walks[w].consumer, s.walks[w].at, oldest);
      case Handle(w) =>
        var k := s.walks[w];
        DoneKept(cfg, s, s', log, log, k.consumer, k.at);
        assert cfg.wants(k.consumer, log[k.at]) ==> (k.consumer, log[k.at]) in s'.receipts;
      case _ =>
    }
  }

  lemma CompleteKept(cfg: Config, s: Consumers, log: seq<string>, oldest: nat, st: ConsumeStep)
    requires ConsumeEnabled(s, log, oldest, st) && Complete(cfg, s, log) && oldest <= |log|
    ensures Complete(cfg, ConsumeApply(cfg, s, log, oldest, st), log)
  {
    var s' := ConsumeApply(cfg, s, log, oldest, st);
    Grows(cfg, s, log, oldest, st);
    StepDone(cfg, s, log, oldest, st);
    forall c | c in s'.saved ensures DoneUpTo(cfg, s', log, c, s'.saved[c]) {
      if c in s.saved && s'.saved[c] == s.saved[c] {
        DoneKept(cfg, s, s', log, log, c, s.saved[c]);
      } else if st.Save? {
        DoneKept(cfg, s, s', log, log, c, s.walks[st.w].at);
      }
    }
    forall w | w in s'.walks
      ensures s'.walks[w].at <= s'.walks[w].next <= |log|
      ensures DoneUpTo(cfg, s', log, s'.walks[w].consumer, s'.walks[w].at)
    {
      if w in s.walks && s'.walks[w] == s.walks[w] {
        DoneKept(cfg, s, s', log, log, s.walks[w].consumer, s.walks[w].at);
      }
    }
  }

  // -- Every run --------------------------------------------------------------

  ghost predicate Inv(cfg: Config, x: State) {
    && Sourced(x.o, x.log) && NothingLost(x.o, x.log) && Distinct(x.log) && x.oldest <= |x.log|
    && Exact(x.s, x.log) && Complete(cfg, x.s, x.log) && Excused(x.s, x.oldest)
  }

  lemma StoreKeeps(cfg: Config, x: State, e: string)
    requires Inv(cfg, x) && e in x.o.wire && e !in x.log
    ensures Inv(cfg, x.(log := x.log + [e]))
  {
    var log' := x.log + [e];
    forall d ensures d in log' <==> d in x.log || d == e {}
    forall i, j | 0 <= i < j < |log'| ensures log'[i] != log'[j] {
      if j == |x.log| { assert x.log[i] in x.log; }
    }
    forall b | b in x.o.batches ensures SourcedBatch(x.o, log', x.o.batches[b]) {
      assert SourcedBatch(x.o, x.log, x.o.batches[b]);
    }
    forall c | c in x.s.saved ensures DoneUpTo(cfg, x.s, log', c, x.s.saved[c]) {
      DoneKept(cfg, x.s, x.s, x.log, log', c, x.s.saved[c]);
    }
    forall w | w in x.s.walks ensures DoneUpTo(cfg, x.s, log', x.s.walks[w].consumer, x.s.walks[w].at) {
      DoneKept(cfg, x.s, x.s, x.log, log', x.s.walks[w].consumer, x.s.walks[w].at);
    }
  }

  lemma ApplyKeeps(cfg: Config, x: State, st: Step)
    requires GoodConfig(cfg) && Inv(cfg, x) && Enabled(cfg, x, st)
    ensures Inv(cfg, Apply(cfg, x, st))
  {
    match st
    case Tick(_) =>
    case Relay(r) => SourcedKept(cfg, x.o, x.log, x.time, r); NothingLostKept(cfg, x.o, x.log, x.time, r);
    case Store(e) => if e !in x.log { StoreKeeps(cfg, x, e); }
    case Retain(_) =>
    case Consume(k) =>
      ExactKept(cfg, x.s, x.log, x.oldest, k);
      CompleteKept(cfg, x.s, x.log, x.oldest, k);
      ExcusedKept(cfg, x.s, x.log, x.oldest, k);
  }

  lemma {:induction false} RunKeeps(cfg: Config, x: State, steps: seq<Step>)
    requires GoodConfig(cfg) && Inv(cfg, x) && Runs(cfg, x, steps)
    ensures Inv(cfg, After(cfg, x, steps))
    decreases |steps|
  {
    if steps != [] {
      ApplyKeeps(cfg, x, steps[0]);
      RunKeeps(cfg, Apply(cfg, x, steps[0]), steps[1..]);
    }
  }

  /**
   * Exactly once, end to end, over every interleaving of producers, relays, crashes, late and repeated publishes and
   * redeliveries: an effect happens at most once for a consumer and event, only if the producing transaction
   * committed; and every wanted event before a saved cursor has had its effect, unless the consumer was told that
   * position is gone.
   */
  lemma ExactlyOnce(cfg: Config, steps: seq<Step>)
    requires GoodConfig(cfg) && Runs(cfg, START, steps)
    ensures var x := After(cfg, START, steps);
            && (forall i, j :: 0 <= i < j < |x.s.effects| ==> x.s.effects[i] != x.s.effects[j])
            && (forall i :: 0 <= i < |x.s.effects| ==> x.s.effects[i].1 in x.o.committed)
            && (forall c, p :: c in x.s.saved && 0 <= p < x.s.saved[c] ==>
                  p < |x.log| && (cfg.wants(c, x.log[p]) && (c, p) !in x.s.missed ==> (c, x.log[p]) in x.s.effects))
            && (forall c, p :: (c, p) in x.s.missed ==> p < x.oldest || (c in x.s.joined && p < x.s.joined[c]))
  {
    RunKeeps(cfg, START, steps);
    var x := After(cfg, START, steps);
    forall i | 0 <= i < |x.s.effects| ensures x.s.effects[i].1 in x.o.committed {
      assert x.s.effects[i] in x.s.effects;
    }
    forall c, p | c in x.s.saved && 0 <= p < x.s.saved[c]
      ensures p < |x.log| && (cfg.wants(c, x.log[p]) && (c, p) !in x.s.missed ==> (c, x.log[p]) in x.s.effects)
    {
      assert DoneUpTo(cfg, x.s, x.log, c, x.s.saved[c]);
    }
  }

  /**
   * No row is lost: Events stores a committed event at most once, a row marked sent is held by Events, and an event
   * Events lacks still has its unsent row.
   */
  lemma NoRowLost(cfg: Config, steps: seq<Step>)
    requires GoodConfig(cfg) && Runs(cfg, START, steps)
    ensures var x := After(cfg, START, steps);
            && Distinct(x.log) && (forall e :: e in x.log ==> e in x.o.committed)
            && (forall id :: id in x.o.table && x.o.table[id].sentAt.Some? ==> x.o.table[id].eventId in x.log)
            && (forall e :: e in x.o.committed && e !in x.log ==>
                  exists id :: id in x.o.table && x.o.table[id].eventId == e && x.o.table[id].sentAt.None?)
  {
    RunKeeps(cfg, START, steps);
    var x := After(cfg, START, steps);
    forall e | e in x.o.committed && e !in x.log
      ensures exists id :: id in x.o.table && x.o.table[id].eventId == e && x.o.table[id].sentAt.None?
    {
      var id :| id in x.o.table && x.o.table[id].eventId == e;
      assert x.o.table[id].sentAt.None?;
    }
  }

  // -- Leases -----------------------------------------------------------------

  /** The longest a pending row can have to wait. */
  function Longest(cfg: Config): int
    requires cfg.backoffMs != []
  {
    Max(cfg.leaseMs, Largest(cfg.backoffMs))
  }

  ghost predicate NotStuck(cfg: Config, x: State)
    requires cfg.backoffMs != []
  {
    x.time >= 0 && forall id :: id in x.o.table && Pending(x.o.table[id]) ==> x.o.table[id].due <= x.time + Longest(cfg)
  }

  lemma NotStuckKept(cfg: Config, x: State, st: Step)
    requires GoodConfig(cfg) && Enabled(cfg, x, st) && NotStuck(cfg, x)
    ensures NotStuck(cfg, Apply(cfg, x, st))
  {
    if st.Relay? && st.r.Fail? {
      BackoffBounded(cfg.backoffMs, x.o.batches[st.r.b].rows[st.r.id].attempts);
    }
  }

  /** Every batch in flight was claimed less than `h` ago. */
  ghost predicate Timely(h: int, x: State) {
    forall b :: b in x.o.batches ==> x.time < x.o.batches[b].at + h
  }

  /** A pending row of a batch in flight is leased to it. */
  ghost predicate Leases(cfg: Config, o: Producers, c: Claimed) {
    forall id :: id in c.rows ==> id < o.nextId && (id in o.table && Pending(o.table[id]) ==>
      o.table[id].due == c.at + cfg.leaseMs)
  }

  ghost predicate Apart(o: Producers) {
    forall b, d :: b in o.batches && d in o.batches && b != d ==> o.batches[b].rows.Keys !! o.batches[d].rows.Keys
  }

  ghost predicate LeaseHeld(cfg: Config, x: State) {
    && (forall id :: id in x.o.table ==> id < x.o.nextId)
    && (forall b :: b in x.o.batches ==> Leases(cfg, x.o, x.o.batches[b]))
    && Apart(x.o)
  }

  lemma ClaimKeepsLeases(cfg: Config, x: State, b: nat, ids: set<nat>)
    requires GoodConfig(cfg) && RelayEnabled(cfg, x.o, x.log, x.time, Claim(b, ids)) && LeaseHeld(cfg, x)
    requires Timely(cfg.leaseMs, x)
    ensures LeaseHeld(cfg, Apply(cfg, x, Relay(Claim(b, ids))))
  {
    var o' := RelayApply(cfg, x.o, x.log, x.time, Claim(b, ids));
    forall d | d in x.o.batches ensures x.o.batches[d].rows.Keys !! ids && Leases(cfg, o', x.o.batches[d]) {
      assert Leases(cfg, x.o, x.o.batches[d]);
    }
    assert o'.batches[b].rows.Keys == ids;
  }

  /** Settling rows of one batch leaves the others as they are, and no batch gains a row. */
  lemma FinishShrinks(batches: map<nat, Claimed>, b: nat, ids: set<nat>, d: nat)
    requires b in batches && d in Finish(batches, b, ids)
    ensures var (c, c') := (batches[d], Finish(batches, b, ids)[d]);
            d in batches && c'.at == c.at && c'.rows.Keys <= c.rows.Keys && (d == b ==> c'.rows.Keys !! ids)
                && (d != b ==> c' == c)
  {
  }

  /** Settling rows that only batch b holds keeps the leases: the other batches' rows stand as they did. */
  lemma SettleKeepsLeases(cfg: Config, o: Producers, o': Producers, b: nat, ids: set<nat>)
    requires b in o.batches && ids <= o.batches[b].rows.Keys && o'.batches == Finish(o.batches, b, ids)
    requires o'.nextId == o.nextId
    requires forall id :: id in o'.table && id !in ids ==> id in o.table && o'.table[id] == o.table[id]
    requires (forall d :: d in o.batches ==> Leases(cfg, o, o.batches[d])) && Apart(o)
    ensures (forall d :: d in o'.batches ==> Leases(cfg, o', o'.batches[d])) && Apart(o')
  {
    forall d | d in o'.batches ensures Leases(cfg, o', o'.batches[d]) {
      FinishShrinks(o.batches, b, ids, d);
      assert Leases(cfg, o, o.batches[d]);
      if d != b { assert o.batches[d].rows.Keys !! ids; }
    }
    forall d, e | d in o'.batches && e in o'.batches && d != e
      ensures o'.batches[d].rows.Keys !! o'.batches[e].rows.Keys
    {
      FinishShrinks(o.batches, b, ids, d);
      FinishShrinks(o.batches, b, ids, e);
    }
  }

  lemma MarkKeepsLeases(cfg: Config, x: State, b: nat, ids: set<nat>)
    requires GoodConfig(cfg) && Enabled(cfg, x, Relay(Mark(b, ids))) && LeaseHeld(cfg, x)
    requires ids <= x.o.batches[b].rows.Keys
    ensures LeaseHeld(cfg, Apply(cfg, x, Relay(Mark(b, ids))))
  {
    SettleKeepsLeases(cfg, x.o, RelayApply(cfg, x.o, x.log, x.time, Mark(b, ids)), b, ids);
  }

  lemma FailKeepsLeases(cfg: Config, x: State, b: nat, id: nat, permanent: bool)
    requires GoodConfig(cfg) && Enabled(cfg, x, Relay(Fail(b, id, permanent))) && LeaseHeld(cfg, x)
    ensures LeaseHeld(cfg, Apply(cfg, x, Relay(Fail(b, id, permanent))))
  {
    assert Leases(cfg, x.o, x.o.batches[b]);
    SettleKeepsLeases(cfg, x.o, RelayApply(cfg, x.o, x.log, x.time, Fail(b, id, permanent)), b, {id});
  }

  lemma LeaseHeldKept(cfg: Config, x: State, st: Step)
    requires GoodConfig(cfg) && Enabled(cfg, x, st) && Sourced(x.o, x.log) && LeaseHeld(cfg, x)
    requires Timely(cfg.leaseMs, x)
    ensures LeaseHeld(cfg, Apply(cfg, x, st))
  {
    if st.Relay? {
      match st.r
      case Claim(b, ids) => ClaimKeepsLeases(cfg, x, b, ids);
      case Mark(b, ids) => assert SourcedBatch(x.o, x.log, x.o.batches[b]); MarkKeepsLeases(cfg, x, b, ids);
      case Fail(b, id, permanent) => FailKeepsLeases(cfg, x, b, id, permanent);
      case _ => QuietKeepsLeases(cfg, x, st);
    }
  }

  /** Where the batches keep their rows and the table its old ones, the leases stand. */
  lemma CarriedLeases(cfg: Config, o: Producers, o': Producers)
    requires forall id :: id in o'.table && id < o.nextId ==> id in o.table && o'.table[id] == o.table[id]
    requires o.nextId <= o'.nextId
    requires forall d :: d in o'.batches ==> d in o.batches && SameRows(o.batches[d], o'.batches[d])
    requires (forall d :: d in o.batches ==> Leases(cfg, o, o.batches[d])) && Apart(o)
    ensures (forall d :: d in o'.batches ==> Leases(cfg, o', o'.batches[d])) && Apart(o')
  {
    forall d | d in o'.batches ensures Leases(cfg, o', o'.batches[d]) {
      assert Leases(cfg, o, o.batches[d]) && SameRows(o.batches[d], o'.batches[d]);
    }
  }

  predicate SameRows(c: Claimed, c': Claimed) { c'.rows == c.rows && c'.at == c.at }

  lemma QuietKeepsLeases(cfg: Config, x: State, st: Step)
    requires GoodConfig(cfg) && Enabled(cfg, x, st) && LeaseHeld(cfg, x)
    requires st.Relay? && !st.r.Claim? && !st.r.Mark? && !st.r.Fail?
    ensures LeaseHeld(cfg, Apply(cfg, x, st))
  {
    CarriedLeases(cfg, x.o, RelayApply(cfg, x.o, x.log, x.time, st.r));
  }

  /** A run in which every batch settles, or its relay dies, within h. */
  ghost predicate TimelyRun(cfg: Config, h: int, x: State, steps: seq<Step>)
    requires GoodConfig(cfg) && Runs(cfg, x, steps)
    decreases |steps|
  {
    Timely(h, x) && (steps == [] || TimelyRun(cfg, h, Apply(cfg, x, steps[0]), steps[1..]))
  }

  lemma {:induction false} LeaseHeldOverRun(cfg: Config, h: int, x: State, steps: seq<Step>)
    requires GoodConfig(cfg) && Runs(cfg, x, steps) && TimelyRun(cfg, h, x, steps) && h <= cfg.leaseMs
    requires LeaseHeld(cfg, x) && Inv(cfg, x)
    ensures LeaseHeld(cfg, After(cfg, x, steps))
    decreases |steps|
  {
    if steps != [] {
      ApplyKeeps(cfg, x, steps[0]);
      LeaseHeldKept(cfg, x, steps[0]);
      LeaseHeldOverRun(cfg, h, Apply(cfg, x, steps[0]), steps[1..]);
    }
  }

  lemma {:induction false} NotStuckOverRun(cfg: Config, x: State, steps: seq<Step>)
    requires GoodConfig(cfg) && Runs(cfg, x, steps) && NotStuck(cfg, x)
    ensures NotStuck(cfg, After(cfg, x, steps))
    decreases |steps|
  {
    if steps != [] {
      NotStuckKept(cfg, x, steps[0]);
      NotStuckOverRun(cfg, Apply(cfg, x, steps[0]), steps[1..]);
    }
  }

  /** If every batch settles within its lease, no row is ever in two batches. */
  lemma NoDoubleSend(cfg: Config, h: int, steps: seq<Step>)
    requires GoodConfig(cfg) && Runs(cfg, START, steps) && TimelyRun(cfg, h, START, steps) && h <= cfg.leaseMs
    ensures Apart(After(cfg, START, steps).o)
  {
    LeaseHeldOverRun(cfg, h, START, steps);
  }

  /** On no run with batches that settle within h is a row in two batches. */
  ghost predicate AlwaysApart(cfg: Config, h: int)
    requires GoodConfig(cfg)
  {
    forall steps :: Runs(cfg, START, steps) && TimelyRun(cfg, h, START, steps) ==> Apart(After(cfg, START, steps).o)
  }

  /** One row, claimed, and claimed again the moment its lease ends. */
  function SlowBatch(cfg: Config): seq<Step>
    requires cfg.leaseMs > 0
  {
    [ Relay(Begin(0, "e")), Relay(Commit(0)), Relay(Claim(1, {0})), Tick(cfg.leaseMs), Relay(Claim(2, {0})) ]
  }

  function OneRow(time: int, due: int, batches: map<nat, Claimed>): State {
    var o := Producers(map[], {"e"}, map[0 := Row("e", 0, due, None, None)], 1, batches, {});
    State(time, o, [], 0, Consumers(map[], map[], map[], {}, {}, []))
  }

  function Taken(at: int, due: int): Claimed { Claimed(map[0 := Row("e", 0, due, None, None)], at, {}) }

  lemma OneStep(cfg: Config, h: int, x: State, st: Step, rest: seq<Step>, y: State)
    requires GoodConfig(cfg) && Enabled(cfg, x, st) && Timely(h, x) && Apply(cfg, x, st) == y
    requires Runs(cfg, y, rest) && TimelyRun(cfg, h, y, rest)
    ensures Runs(cfg, x, [st] + rest) && TimelyRun(cfg, h, x, [st] + rest)
    ensures After(cfg, x, [st] + rest) == After(cfg, y, rest)
  {
    assert ([st] + rest)[1..] == rest;
  }

  lemma RowCommitted(cfg: Config)
    requires GoodConfig(cfg)
    ensures
      var x := START.(o := START.o.(pending := map[0 := "e"]));
      && Enabled(cfg, START, Relay(Begin(0, "e"))) && Apply(cfg, START, Relay(Begin(0, "e"))) == x
      && Enabled(cfg, x, Relay(Commit(0))) && Apply(cfg, x, Relay(Commit(0))) == OneRow(0, 0, map[])
  {
    var o := START.o;
    assert o.pending[0 := "e"] == map[0 := "e"];
    assert map[0 := "e"] - {0} == map[] && {} + {"e"} == {"e"}
        && o.table[0 := NewRow("e")] == map[0 := Row("e", 0, 0, None, None)];
  }

  lemma RowClaimed(cfg: Config, time: int, due: int, b: nat, batches: map<nat, Claimed>)
    requires GoodConfig(cfg) && cfg.batchSize >= 1 && due <= time && b !in batches
    ensures
      var x := OneRow(time, due, batches);
      && Enabled(cfg, x, Relay(Claim(b, {0})))
      && Apply(cfg, x, Relay(Claim(b, {0}))) == OneRow(time, time + cfg.leaseMs, batches[b := Taken(time, due)])
  {
    var (o, ids, row) := (OneRow(time, due, batches).o, {0}, Row("e", 0, due, None, None));
    var next := RelayApply(cfg, o, [], time, Claim(b, ids));
    assert next.table.Keys == {0} && next.table[0] == row.(due := time + cfg.leaseMs);
    assert next.table == map[0 := row.(due := time + cfg.leaseMs)];
    assert next.batches[b].rows.Keys == {0} && next.batches[b].rows[0] == row;
    assert next.batches[b].rows == map[0 := row];
    assert next.batches == batches[b := next.batches[b]];
  }

  /** With batches that may settle any later than their lease, the row can be in two of them. */
  lemma SlowBatchTwice(cfg: Config, h: int)
    requires GoodConfig(cfg) && cfg.batchSize >= 1 && h > cfg.leaseMs
    ensures Runs(cfg, START, SlowBatch(cfg)) && TimelyRun(cfg, h, START, SlowBatch(cfg))
    ensures !Apart(After(cfg, START, SlowBatch(cfg)).o)
  {
    var (st, l) := (SlowBatch(cfg), cfg.leaseMs);
    var first := map[1 := Taken(0, 0)];
    var both := first[2 := Taken(l, l)];
    var x0 := START.(o := START.o.(pending := map[0 := "e"]));
    var (x1, x2, x3, x4) := (OneRow(0, 0, map[]), OneRow(0, l, first), OneRow(l, l, first), OneRow(l, 2 * l, both));
    RowCommitted(cfg);
    RowClaimed(cfg, 0, 0, 1, map[]);
    RowClaimed(cfg, l, l, 2, first);
    assert map[][1 := Taken(0, 0)] == first;
    var s4 := [st[4]];
    var s3 := [st[3]] + s4;
    var s2 := [st[2]] + s3;
    var s1 := [st[1]] + s2;
    assert [st[4]] + [] == s4;
    OneStep(cfg, h, x3, st[4], [], x4);
    OneStep(cfg, h, x2, st[3], s4, x3);
    OneStep(cfg, h, x1, st[2], s3, x2);
    OneStep(cfg, h, x0, st[1], s2, x1);
    OneStep(cfg, h, START, st[0], s1, x0);
    assert [st[0]] + s1 == st;
    InBoth(x4.o);
  }

  lemma InBoth(o: Producers)
    requires 1 in o.batches && 2 in o.batches && 0 in o.batches[1].rows && 0 in o.batches[2].rows
    ensures !Apart(o)
  {
    assert 0 in o.batches[1].rows.Keys * o.batches[2].rows.Keys;
  }

  /** No row is in two batches, on any run, exactly when batches settle within a time that is at most the lease. */
  lemma ApartIff(cfg: Config, h: int)
    requires GoodConfig(cfg) && cfg.batchSize >= 1
    ensures AlwaysApart(cfg, h) <==> h <= cfg.leaseMs
  {
    if h <= cfg.leaseMs {
      forall steps | Runs(cfg, START, steps) && TimelyRun(cfg, h, START, steps)
        ensures Apart(After(cfg, START, steps).o)
      {
        NoDoubleSend(cfg, h, steps);
      }
    } else {
      SlowBatchTwice(cfg, h);
    }
  }

  /**
   * No row is stuck: whatever failed or crashed, a pending row is due again within the longer of the lease and the
   * largest backoff.
   */
  lemma DueAgain(cfg: Config, steps: seq<Step>, id: nat)
    requires GoodConfig(cfg) && Runs(cfg, START, steps)
    ensures var x := After(cfg, START, steps);
            id in x.o.table && Pending(x.o.table[id]) ==> Due(x.o.table[id], x.time + Longest(cfg))
  {
    NotStuckOverRun(cfg, START, steps);
  }
}
