/**
 * The transactional outbox and its relay (src/outbox.js): rows claimed under a lease, published to Events in
 * batches, marked sent, rejected or due again. The relay here is one process at work alone; Pipeline interleaves
 * any number of them.
 *
 * The clock, and what Events answers to each publish, are functions of how often they were asked, so a contract
 * that holds here holds for every clock and every sequence of answers.
 */
module Outbox {
  import opened Prelude

  // -- Rows -------------------------------------------------------------------

  datatype Row = Row(eventId: string, attempts: nat, due: int, sentAt: Option<int>, rejectedAt: Option<int>)

  type Table = map<nat, Row>

  predicate Pending(r: Row) { r.sentAt.None? && r.rejectedAt.None? }

  predicate Due(r: Row, t: int) { Pending(r) && r.due <= t }

  function NewRow(eventId: string): Row { Row(eventId, 0, 0, None, None) }

  function Leased(r: Row, until: int): Row { r.(due := until) }

  function Sent(r: Row, t: int): Row { r.(sentAt := Some(t), attempts := r.attempts + 1) }

  function Rejected(r: Row, t: int): Row { r.(rejectedAt := Some(t), attempts := r.attempts + 1) }

  function Retried(r: Row, due: int): Row { r.(attempts := r.attempts + 1, due := due) }

  function Backoff(backoffMs: seq<int>, attempts: nat): int
    requires backoffMs != []
  {
    backoffMs[Min(attempts, |backoffMs| - 1)]
  }

  function Largest(backoffMs: seq<int>): (m: int)
    requires backoffMs != []
    ensures forall b :: b in backoffMs ==> b <= m
    ensures m in backoffMs
  {
    if |backoffMs| == 1 then backoffMs[0]
    else
      var rest := Largest(backoffMs[1..]);
      assert forall b :: b in backoffMs ==> b == backoffMs[0] || b in backoffMs[1..];
      Max(backoffMs[0], rest)
  }

  lemma BackoffBounded(backoffMs: seq<int>, attempts: nat)
    requires backoffMs != []
    ensures Backoff(backoffMs, attempts) <= Largest(backoffMs)
  {
    assert Backoff(backoffMs, attempts) in backoffMs;
  }

  /** Neither sent nor rejected, and due by t. */
  ghost predicate Claimable(r: Row, t: int) { r.sentAt == None && r.rejectedAt == None && r.due <= t }

  /** The first `limit` due rows with ids from lo, in the order they were written. */
  function FirstDue(table: Table, t: int, lo: nat, hi: nat, limit: nat): (ids: seq<nat>)
    ensures |ids| <= limit
    ensures forall id :: id in ids ==> lo <= id < hi && id in table && Due(table[id], t)
    ensures forall i, j :: 0 <= i < j < |ids| ==> ids[i] < ids[j]
    ensures forall id :: lo <= id < hi && id in table && Due(table[id], t) && id !in ids ==>
              |ids| == limit && forall x :: x in ids ==> x < id
    decreases hi - lo
  {
    if lo >= hi || limit == 0 then []
    else if lo in table && Due(table[lo], t) then
      var rest := FirstDue(table, t, lo + 1, hi, limit - 1);
      assert forall i :: 0 <= i < |rest| ==> rest[i] in rest;
      [lo] + rest
    else FirstDue(table, t, lo + 1, hi, limit)
  }

  function LeaseRows(table: Table, ids: seq<nat>, until: int): Table {
    map id | id in table :: if id in ids then Leased(table[id], until) else table[id]
  }

  function MarkSent(table: Table, ids: seq<nat>, t: int): Table {
    map id | id in table :: if id in ids then Sent(table[id], t) else table[id]
  }

  // -- What Events answers ----------------------------------------------------

  /** An error as the relay reads it. */
  datatype Failure = Failure(status: Option<int>, code: string, fromTokenEndpoint: bool, retryAfterS: Option<real>)

  /**
   * One publish: stored, with the mark in the database done or failed; or failed, in which case Events may still
   * have stored some of the events (a lost answer).
   */
  datatype Answer = Published(markFails: bool) | Failed(error: Failure, stored: set<string>)

  const RETRYABLE_4XX: set<int> := {401, 408, 409, 425, 429}

  /** Only Events refusing the envelope is permanent; a failure to get a token says nothing about the event. */
  predicate IsPermanent(e: Failure) {
    !e.fromTokenEndpoint
    && e.status.Some?
    && ((e.status.value == 409 && e.code == "events.loop_detected")
        || (400 <= e.status.value < 500 && e.status.value !in RETRYABLE_4XX))
  }

  /**
   * Events refuses an envelope for good with a 4xx that asking again would not change. A failure that is none of
   * Events' answers, or that says to ask again, is not one.
   */
  ghost predicate RefusedForGood(e: Failure) {
    && e.status.Some? && 400 <= e.status.value <= 499 && !e.fromTokenEndpoint
    && e.status.value != 401 && e.status.value != 408 && e.status.value != 425 && e.status.value != 429
    && (e.status.value == 409 ==> e.code == "events.loop_detected")
  }

  lemma PermanentIff(e: Failure)
    ensures IsPermanent(e) <==> RefusedForGood(e)
  {
  }

  /** How long a 429 pauses the relay: what it says, at most an hour; a minute without a usable answer. */
  function PauseMs(e: Failure): (ms: real)
    ensures e.retryAfterS.None? || e.retryAfterS.value <= 0.0 ==> ms == 60000.0
    ensures e.retryAfterS.Some? && 0.0 < e.retryAfterS.value <= 3600.0 ==> ms == 1000.0 * e.retryAfterS.value
    ensures e.retryAfterS.Some? && e.retryAfterS.value > 3600.0 ==> ms == 3600000.0
  {
    var s := e.retryAfterS.GetOr(0.0);
    1000.0 * (if s <= 0.0 then 60.0 else if s < 3600.0 then s else 3600.0)
  }

  /** The database's own error, when marking rows sent fails. */
  const MARK_FAILED: Failure := Failure(None, "", false, None)

  ghost predicate PausedAt(until: real, t: int, e: Failure) { until == t as real + PauseMs(e) }

  datatype Stats = Stats(sent: nat, failed: nat, rejected: nat) {
    function Plus(s: Stats): Stats { Stats(sent + s.sent, failed + s.failed, rejected + s.rejected) }
  }

  // -- Accounting -------------------------------------------------------------

  function EventIds(table: Table, ids: seq<nat>): set<string>
    requires forall id :: id in ids ==> id in table
  {
    set id | id in ids :: table[id].eventId
  }

  ghost predicate Batch(table: Table, ids: seq<nat>) {
    Distinct(ids) && forall i :: 0 <= i < |ids| ==> ids[i] in table && Pending(table[ids[i]])
  }

  /** A row settled at t: published and marked, refused for good, or due again after its backoff; one attempt more. */
  ghost predicate SettledAt(r: Row, r': Row, t: int, held: set<string>, backoffMs: seq<int>)
    requires backoffMs != []
  {
    || (r' == Row(r.eventId, r.attempts + 1, r.due, Some(t), r.rejectedAt) && r.eventId in held)
    || r' == Row(r.eventId, r.attempts + 1, r.due, r.sentAt, Some(t))
    || r' == DueAgain(r, t, backoffMs)
  }

  /** One attempt more, due after the backoff of the attempts made before, the last of the list for all later ones. */
  ghost function DueAgain(r: Row, t: int, backoffMs: seq<int>): Row
    requires backoffMs != []
  {
    var n := |backoffMs|;
    Row(r.eventId, r.attempts + 1, t + (if r.attempts < n then backoffMs[r.attempts] else backoffMs[n - 1]), r.sentAt,
        r.rejectedAt)
  }

  ghost predicate Settled(r: Row, r': Row, from: int, to: int, held: set<string>, backoffMs: seq<int>)
    requires backoffMs != []
  {
    exists t :: SettledAt(r, r', t, held, backoffMs) && from <= t <= to
  }

  lemma SettledNow(r: Row, r': Row, from: int, t: int, held: set<string>, backoffMs: seq<int>)
    requires backoffMs != [] && SettledAt(r, r', t, held, backoffMs) && from <= t
    ensures Settled(r, r', from, t, held, backoffMs)
  {
  }

  lemma SettledWiden(r: Row, r': Row, from: int, to: int, from': int, to': int, held: set<string>,
      held': set<string>, backoffMs: seq<int>)
    requires backoffMs != [] && Settled(r, r', from, to, held, backoffMs) && from' <= from && to <= to' && held <= held'
    ensures Settled(r, r', from', to', held', backoffMs)
  {
    var t :| SettledAt(r, r', t, held, backoffMs) && from <= t <= to;
    assert SettledAt(r, r', t, held', backoffMs);
  }

  ghost predicate AllSettled(table: Table, table': Table, ids: seq<nat>, from: int, to: int, held: set<string>,
      backoffMs: seq<int>)
    requires backoffMs != []
  {
    && table'.Keys == table.Keys
    && (forall id :: id in table && id !in ids ==> table'[id] == table[id])
    && (forall id :: id in table && id in ids ==> Settled(table[id], table'[id], from, to, held, backoffMs))
  }

  /** What became of a row that was pending. */
  datatype Fate = WasSent | WasRejected | StillPending

  function FateOf(r: Row): Fate {
    if r.sentAt.Some? then WasSent else if r.rejectedAt.Some? then WasRejected else StillPending
  }

  /** What an answer makes of the rows it is about. */
  ghost function FateFor(a: Answer): Fate {
    match a
    case Published(markFails) => if markFails then StillPending else WasSent
    case Failed(e, _) => if RefusedForGood(e) then WasRejected else StillPending
  }

  /** A batch of several rows is published row by row once Events refuses it for good. */
  ghost predicate Splits(answer: nat -> Answer, publishes: nat, n: nat) {
    n > 1 && answer(publishes).Failed? && RefusedForGood(answer(publishes).error)
  }

  ghost predicate AllFated(table: Table, ids: seq<nat>, f: Fate) {
    forall k :: 0 <= k < |ids| ==> ids[k] in table && FateOf(table[ids[k]]) == f
  }

  predicate InTable(table: Table, ids: seq<nat>) { forall i :: 0 <= i < |ids| ==> ids[i] in table }

  function Count(table: Table, ids: seq<nat>, f: Fate): nat
    requires InTable(table, ids)
  {
    if ids == [] then 0
    else Count(table, ids[..|ids| - 1], f) + (if FateOf(table[ids[|ids| - 1]]) == f then 1 else 0)
  }

  /** How many of the rows ended sent, still pending, and rejected. */
  function Tally(table: Table, ids: seq<nat>): Stats
    requires InTable(table, ids)
  {
    Stats(Count(table, ids, WasSent), Count(table, ids, StillPending), Count(table, ids, WasRejected))
  }

  lemma {:induction false} TallyCoversAll(table: Table, ids: seq<nat>)
    requires InTable(table, ids)
    ensures var s := Tally(table, ids); s.sent + s.failed + s.rejected == |ids|
  {
    if ids != [] { TallyCoversAll(table, ids[..|ids| - 1]); }
  }

  lemma {:induction false} CountSame(a: Table, b: Table, ids: seq<nat>, f: Fate)
    requires InTable(a, ids) && InTable(b, ids) && forall i :: 0 <= i < |ids| ==> a[ids[i]] == b[ids[i]]
    ensures Count(a, ids, f) == Count(b, ids, f)
  {
    if ids != [] { CountSame(a, b, ids[..|ids| - 1], f); }
  }

  lemma {:induction false} CountAll(table: Table, ids: seq<nat>, f: Fate, g: Fate)
    requires InTable(table, ids) && forall i :: 0 <= i < |ids| ==> FateOf(table[ids[i]]) == f
    ensures Count(table, ids, g) == if f == g then |ids| else 0
  {
    if ids != [] { CountAll(table, ids[..|ids| - 1], f, g); }
  }

  lemma {:induction false} CountNone(table: Table, ids: seq<nat>, f: Fate)
    requires InTable(table, ids) && Count(table, ids, f) == 0
    ensures forall i :: 0 <= i < |ids| ==> FateOf(table[ids[i]]) != f
  {
    if ids != [] { CountNone(table, ids[..|ids| - 1], f); }
  }

  lemma CountOneMore(before: Table, after: Table, ids: seq<nat>, i: nat, f: Fate)
    requires i < |ids| && InTable(before, ids) && InTable(after, ids)
    requires forall k :: 0 <= k < i ==> after[ids[k]] == before[ids[k]]
    ensures Count(after, ids[..i + 1], f) == Count(before, ids[..i], f) + Count(after, [ids[i]], f)
  {
    CountSame(before, after, ids[..i], f);
    assert ids[..i + 1][..i] == ids[..i];
    assert Count(after, [ids[i]], f) == if FateOf(after[ids[i]]) == f then 1 else 0 by { assert [ids[i]][..0] == []; }
  }

  lemma TallyAll(table: Table, ids: seq<nat>, f: Fate)
    requires InTable(table, ids) && forall i :: 0 <= i < |ids| ==> FateOf(table[ids[i]]) == f
    ensures Tally(table, ids) == match f
                                 case WasSent => Stats(|ids|, 0, 0)
                                 case StillPending => Stats(0, |ids|, 0)
                                 case WasRejected => Stats(0, 0, |ids|)
  {
    CountAll(table, ids, f, WasSent);
    CountAll(table, ids, f, StillPending);
    CountAll(table, ids, f, WasRejected);
  }

  lemma TallyOneMore(before: Table, after: Table, ids: seq<nat>, i: nat)
    requires i < |ids| && InTable(before, ids) && InTable(after, ids)
    requires forall k :: 0 <= k < i ==> after[ids[k]] == before[ids[k]]
    ensures Tally(after, ids[..i + 1]) == Tally(before, ids[..i]).Plus(Tally(after, [ids[i]]))
  {
    CountOneMore(before, after, ids, i, WasSent);
    CountOneMore(before, after, ids, i, StillPending);
    CountOneMore(before, after, ids, i, WasRejected);
  }

  function PendingIds(table: Table): set<nat> { set id | id in table && Pending(table[id]) }

  /** The pending rows fall by exactly the rows sent or rejected. */
  lemma {:induction false} PendingFalls(table: Table, table': Table, ids: seq<nat>)
    requires Batch(table, ids) && table'.Keys == table.Keys
    requires forall id :: id in table && id !in ids ==> table'[id] == table[id]
    ensures PendingIds(table') <= PendingIds(table)
    ensures |PendingIds(table)| == |PendingIds(table')| + |ids| - Count(table', ids, StillPending)
  {
    if ids == [] {
      assert table' == table;
    } else {
      var n := |ids| - 1;
      var (last, init) := (ids[n], ids[..n]);
      var before := table'[last := table[last]];
      InitOfBatch(table, ids);
      PendingFalls(table, before, init);
      CountSame(before, table', init, StillPending);
      OneFalls(before, table', last);
    }
  }

  lemma InitOfBatch(table: Table, ids: seq<nat>)
    requires ids != [] && Batch(table, ids)
    ensures
      var (init, last) := (ids[..|ids| - 1], ids[|ids| - 1]);
      Batch(table, init) && last !in init && last in table && Pending(table[last])
          && forall id :: id in ids <==> id in init || id == last
  {
    var (init, last) := (ids[..|ids| - 1], ids[|ids| - 1]);
    assert ids == init + [last] && last in ids;
    forall i | 0 <= i < |init| ensures init[i] != last && init[i] in ids { assert ids[i] == init[i]; }
  }

  /** One row that stops being pending. */
  lemma OneFalls(before: Table, after: Table, id: nat)
    requires id in before && Pending(before[id]) && after.Keys == before.Keys && after == before[id := after[id]]
    ensures PendingIds(after) <= PendingIds(before)
    ensures |PendingIds(before)| == |PendingIds(after)| + (if Pending(after[id]) then 0 else 1)
  {
    assert id in PendingIds(before);
    if Pending(after[id]) {
      assert PendingIds(after) == PendingIds(before);
    } else {
      assert PendingIds(after) == PendingIds(before) - {id};
    }
  }

  // -- The relay --------------------------------------------------------------

  class Relay {
    var table: Table
    var nextId: nat
    var pausedUntil: real
    /** What Events has stored. */
    var held: set<string>

    /** The clock, and the number of readings and of publishes so far. */
    var time: int
    var readings: nat
    var publishes: nat
    const tick: nat -> nat
    const answer: nat -> Answer

    const batchSize: nat
    const leaseMs: int
    const backoffMs: seq<int>

    ghost predicate Valid()
      reads this
    {
      backoffMs != [] && leaseMs > 0 && forall id :: id in table ==> id < nextId
    }

    constructor (tick: nat -> nat, answer: nat -> Answer, batchSize: nat, leaseMs: int, backoffMs: seq<int>)
      requires backoffMs != [] && leaseMs > 0
      ensures Valid() && table == map[] && held == {}
    {
      table, nextId, pausedUntil, held, time, readings, publishes := map[], 0, 0.0, {}, 0, 0, 0;
      this.tick, this.answer := tick, answer;
      this.batchSize, this.leaseMs, this.backoffMs := batchSize, leaseMs, backoffMs;
    }

    method Now() returns (t: int)
      modifies this`time, this`readings
      ensures t == time >= old(time)
    {
      time := time + tick(readings);
      readings := readings + 1;
      t := time;
    }

    /**
     * INSERT: the row exists from the commit of the caller's transaction, due at once; a repeated event id is
     * refused.
     */
    method Enqueue(eventId: string) returns (ok: bool)
      requires Valid()
      modifies this`table, this`nextId
      ensures Valid()
      ensures ok == forall id :: id in old(table) ==> old(table)[id].eventId != eventId
      ensures table == if ok then old(table)[old(nextId) := Row(eventId, 0, 0, None, None)] else old(table)
    {
      ok := forall id | id in table :: table[id].eventId != eventId;
      if ok {
        table, nextId := table[nextId := NewRow(eventId)], nextId + 1;
      }
    }

    /** UPDATE … RETURNING: the first due rows, leased so that no other relay takes them until the lease ends. */
    method Claim() returns (ids: seq<nat>)
      requires Valid()
      modifies this`table, this`time, this`readings
      ensures Valid() && time >= old(time)
      ensures |ids| <= batchSize && forall i, j :: 0 <= i < j < |ids| ==> ids[i] < ids[j]
      ensures forall id :: id in ids ==> id in old(table) && Claimable(old(table)[id], time)
      ensures forall id :: id in old(table) && Claimable(old(table)[id], time) && id !in ids ==>
        |ids| == batchSize && forall x :: x in ids ==> x < id
      ensures table.Keys == old(table).Keys
      ensures forall id :: id in table ==>
        table[id] == if id in ids then old(table)[id].(due := time + leaseMs) else old(table)[id]
    {
      var t := Now();
      ids := FirstDue(table, t, 0, nextId, batchSize);
      table := LeaseRows(table, ids, t + leaseMs);
    }

    /** One publish to Events: what it stores and what it says. */
    method Publish(ids: seq<nat>) returns (a: Answer)
      requires forall id :: id in ids ==> id in table
      modifies this`held, this`publishes
      ensures a == answer(old(publishes)) && publishes == old(publishes) + 1
      ensures a.Published? ==> held == old(held) + EventIds(table, ids)
      ensures a.Failed? ==> held == old(held) + a.stored * EventIds(table, ids)
    {
      a := answer(publishes);
      publishes := publishes + 1;
      held := held + match a case Published(_) => EventIds(table, ids) case Failed(_, stored) => stored * EventIds(table, ids);
    }

    method MarkFailure(id: nat, e: Failure)
      requires Valid() && id in table
      modifies this`table, this`time, this`readings
      ensures Valid() && time >= old(time)
      ensures
        var r := old(table)[id];
        table == old(table)[id := if RefusedForGood(e) then r.(rejectedAt := Some(time), attempts := r.attempts + 1)
                                  else DueAgain(r, time, backoffMs)]
    {
      PermanentIff(e);
      var t := Now();
      if IsPermanent(e) {
        table := table[id := Rejected(table[id], t)];
      } else {
        table := table[id := Retried(table[id], t + Backoff(backoffMs, table[id].attempts))];
      }
    }

    /**
     * Publish a batch and settle every row of it: a refused batch of several rows is published again row by row.
     * Each row is settled once, the counts are those of the rows, and a row is marked sent only if Events holds it.
     */
    method PublishRows(ids: seq<nat>) returns (s: Stats)
      requires Valid() && ids != [] && Batch(table, ids)
      modifies this
      ensures Valid() && time >= old(time) && nextId == old(nextId)
      ensures old(held) <= held <= old(held) + EventIds(old(table), ids)
      ensures AllSettled(old(table), table, ids, old(time), time, held, backoffMs)
      ensures s == Tally(table, ids)
      ensures publishes == old(publishes) + 1 + if Splits(answer, old(publishes), |ids|) then |ids| else 0
      ensures if Splits(answer, old(publishes), |ids|) then Fated(table, ids, answer, old(publishes) + 1)
              else AllFated(table, ids, FateFor(answer(old(publishes))))
      ensures
        var a := answer(old(publishes));
        !Splits(answer, old(publishes), |ids|) ==>
          (if a.Failed? && a.error.status == Some(429) then
             exists t :: PausedAt(pausedUntil, t, a.error) && old(time) <= t <= time
           else pausedUntil == old(pausedUntil))
      decreases |ids|, 2
    {
      var a := Publish(ids);
      if a == Published(false) {
        var t := Now();
        ghost var before := table;
        table := MarkSent(table, ids, t);
        SentAll(before, table, ids, old(time), t, held, backoffMs);
        return Stats(|ids|, 0, 0);
      }
      var e := if a.Published? then MARK_FAILED else a.error;
      PermanentIff(e);
      var t := 0;
      if e.status == Some(429) {
        t := Now();
        pausedUntil := t as real + PauseMs(e);
      }
      if |ids| > 1 && IsPermanent(e) {
        s := PublishEach(ids);
      } else {
        FailAll(ids, e);
        assert e.status == Some(429) ==> PausedAt(pausedUntil, t, e);
        s := if IsPermanent(e) then Stats(0, 0, |ids|) else Stats(0, |ids|, 0);
      }
    }

    /** A refused batch, row by row. */
    method PublishEach(ids: seq<nat>) returns (s: Stats)
      requires Valid() && |ids| > 1 && Batch(table, ids)
      modifies this
      ensures Valid() && time >= old(time) && nextId == old(nextId)
      ensures old(held) <= held <= old(held) + EventIds(old(table), ids)
      ensures AllSettled(old(table), table, ids, old(time), time, held, backoffMs)
      ensures s == Tally(table, ids)
      ensures publishes == old(publishes) + |ids|
      ensures Fated(table, ids, answer, old(publishes))
      decreases |ids|, 1
    {
      s := Stats(0, 0, 0);
      var i := 0;
      ghost var (start, begun, first) := (table, time, publishes);
      while i < |ids|
        invariant 0 <= i <= |ids| && Valid() && time >= begun && nextId == old(nextId)
        invariant old(held) <= held <= old(held) + EventIds(start, ids) && publishes == first + i
        invariant EachDone(start, table, ids[..i], begun, time, held, backoffMs, answer, first, s)
      {
        s := PublishNext(ids, i, s, start, begun, first);
        i := i + 1;
      }
      assert ids[..i] == ids;
    }

    /** The next row of a refused batch, published on its own; a row on its own is never split. */
    method PublishNext(ids: seq<nat>, i: nat, s: Stats, ghost start: Table, ghost begun: int, ghost first: nat)
        returns (sum: Stats)
      requires Valid() && |ids| > 1 && i < |ids| && Batch(start, ids) && time >= begun && publishes == first + i
      requires EachDone(start, table, ids[..i], begun, time, held, backoffMs, answer, first, s)
      modifies this
      ensures Valid() && time >= old(time) && nextId == old(nextId) && publishes == old(publishes) + 1
      ensures old(held) <= held <= old(held) + EventIds(start, ids)
      ensures EachDone(start, table, ids[..i + 1], begun, time, held, backoffMs, answer, first, sum)
      decreases |ids|, 0
    {
      RowAlone(start, table, ids, i, begun, time, held, backoffMs);
      var one := PublishOne(ids[i]);
      sum := s.Plus(one);
      OneMoreDone(start, old(table), table, ids, i, begun, old(time), time, old(held), held, backoffMs, answer, first, s,
                  one);
    }

    method PublishOne(id: nat) returns (one: Stats)
      requires Valid() && Batch(table, [id])
      modifies this
      ensures Valid() && time >= old(time) && nextId == old(nextId) && publishes == old(publishes) + 1
      ensures old(held) <= held <= old(held) + EventIds(old(table), [id])
      ensures AllSettled(old(table), table, [id], old(time), time, held, backoffMs)
      ensures InTable(table, [id]) && one == Tally(table, [id])
      ensures AllFated(table, [id], FateFor(answer(old(publishes))))
      decreases 1, 3
    {
      one := PublishRows([id]);
    }

    /** Every row of a failed batch rejected, or due again after its backoff. */
    method FailAll(ids: seq<nat>, e: Failure)
      requires Valid() && Batch(table, ids)
      modifies this`table, this`time, this`readings
      ensures Valid() && time >= old(time)
      ensures AllSettled(old(table), table, ids, old(time), time, held, backoffMs)
      ensures Tally(table, ids) == if RefusedForGood(e) then Stats(0, 0, |ids|) else Stats(0, |ids|, 0)
      ensures AllFated(table, ids, if RefusedForGood(e) then WasRejected else StillPending)
    {
      var i := 0;
      ghost var kind := if RefusedForGood(e) then WasRejected else StillPending;
      while i < |ids|
        invariant 0 <= i <= |ids| && Valid() && time >= old(time)
        invariant AllSettled(old(table), table, ids[..i], old(time), time, held, backoffMs)
        invariant forall k :: 0 <= k < i ==> FateOf(table[ids[k]]) == kind
      {
        ghost var (before, from) := (table, time);
        assert ids[i] in ids && ids[i] !in ids[..i];
        MarkFailure(ids[i], e);
        SettledNow(before[ids[i]], table[ids[i]], from, time, held, backoffMs);
        MarkedOne(before, table, ids[i], table[ids[i]], from, time, held, backoffMs);
        SettledOneMore(old(table), before, table, ids, i, old(time), from, time, held, held, backoffMs);
        i := i + 1;
      }
      assert ids[..i] == ids;
      TallyAll(table, ids, kind);
    }

    /** One turn of a pass: claim a batch and publish it. */
    method Turn() returns (ids: seq<nat>, s: Stats)
      requires Valid()
      modifies this
      ensures Valid() && time >= old(time) && nextId == old(nextId) && old(held) <= held
      ensures |ids| <= batchSize && s.sent + s.failed + s.rejected == |ids|
      ensures |PendingIds(old(table))| == |PendingIds(table)| + s.sent + s.rejected
      ensures Progress(old(table), table, held)
      ensures s.failed == 0 ==> SettledOrSame(old(table), table)
      ensures s.failed == 0 && |ids| < batchSize ==> NoneLeft(old(table), table, old(time))
    {
      ids := Claim();
      LeaseKeeps(old(table), table, ids, time + leaseMs);
      if ids == [] { return ids, Stats(0, 0, 0); }
      ghost var (leased, from) := (table, time);
      s := PublishRows(ids);
      PendingFalls(leased, table, ids);
      TallyCoversAll(table, ids);
      TurnKeeps(old(table), leased, table, ids, from, time, held, backoffMs);
    }

    /**
     * One pass: claim and publish while batches come full and nothing fails. It ends because every full turn sends or
     * rejects its rows; without a failure or a pause, no row that was due when it began is pending when it ends.
     */
    method DoFlush() returns (total: Stats)
      requires Valid()
      modifies this
      ensures Valid() && time >= old(time) && nextId == old(nextId)
      ensures |PendingIds(old(table))| == |PendingIds(table)| + total.sent + total.rejected
      ensures Progress(old(table), table, held)
      ensures total.failed == 0 && pausedUntil <= time as real && batchSize > 0 ==>
        NoneLeft(old(table), table, old(time))
      ensures old(pausedUntil) > time as real ==>
        table == old(table) && held == old(held) && publishes == old(publishes) && total == Stats(0, 0, 0)
    {
      total := Stats(0, 0, 0);
      while true
        invariant Valid() && time >= old(time) && nextId == old(nextId)
        invariant |PendingIds(old(table))| == |PendingIds(table)| + total.sent + total.rejected
        invariant Progress(old(table), table, held) && SettledOrSame(old(table), table)
        invariant total.failed == 0
        invariant old(pausedUntil) > time as real ==>
          table == old(table) && held == old(held) && publishes == old(publishes) && total == Stats(0, 0, 0)
          && pausedUntil == old(pausedUntil)
        decreases |PendingIds(table)|
      {
        var t := Now();
        if (t as real) < pausedUntil { break; }
        ghost var (before, held0) := (table, held);
        var ids, s := Turn();
        ProgressCompose(old(table), before, table, held0, held);
        total := total.Plus(s);
        if ids == [] || s.failed > 0 || |ids| < batchSize { break; }
      }
    }
  }

  /**
   * What a pass does to the table: no row appears or goes, a settled row is left alone, and a row newly sent is held
   * by Events.
   */
  ghost predicate Progress(table: Table, table': Table, held: set<string>) {
    && table'.Keys == table.Keys
    && (forall id :: id in table && !Pending(table[id]) ==> table'[id] == table[id])
    && (forall id :: id in table && Pending(table[id]) && table'[id].sentAt.Some? ==> table'[id].eventId in held)
  }

  ghost predicate SettledOrSame(table: Table, table': Table) {
    forall id :: id in table && id in table' ==> !Pending(table'[id]) || table'[id] == table[id]
  }

  /** No row due at t is pending any more. */
  ghost predicate NoneLeft(table: Table, table': Table, t: int) {
    forall id :: id in table && id in table' && Due(table[id], t) ==> !Pending(table'[id])
  }

  lemma ProgressCompose(a: Table, b: Table, c: Table, held0: set<string>, held: set<string>)
    requires Progress(a, b, held0) && Progress(b, c, held) && held0 <= held
    ensures Progress(a, c, held)
    ensures SettledOrSame(a, b) && SettledOrSame(b, c) ==> SettledOrSame(a, c)
    ensures forall t, t0 :: SettledOrSame(a, b) && NoneLeft(b, c, t) && t0 <= t ==> NoneLeft(a, c, t0)
  {
  }

  lemma LeaseKeeps(before: Table, leased: Table, ids: seq<nat>, until: int)
    requires leased == LeaseRows(before, ids, until)
    ensures PendingIds(leased) == PendingIds(before)
  {
  }

  lemma MarkedOne(before: Table, after: Table, id: nat, r: Row, from: int, to: int, held: set<string>,
      backoffMs: seq<int>)
    requires backoffMs != [] && id in before && after == before[id := r]
    requires Settled(before[id], r, from, to, held, backoffMs)
    ensures AllSettled(before, after, [id], from, to, held, backoffMs)
  {
  }

  /** A claim and its publish: what they leave alone, and, when nothing failed, that no claimed row is pending. */
  lemma TurnKeeps(before: Table, leased: Table, after: Table, ids: seq<nat>, from: int, to: int, held: set<string>,
      backoffMs: seq<int>)
    requires backoffMs != [] && Batch(leased, ids) && leased.Keys == before.Keys
    requires forall id :: id in before && id !in ids ==> leased[id] == before[id]
    requires forall id :: id in before && id in ids ==> Pending(before[id])
    requires AllSettled(leased, after, ids, from, to, held, backoffMs)
    ensures Progress(before, after, held)
    ensures Tally(after, ids).failed == 0 ==> SettledOrSame(before, after) && forall id :: id in ids ==>
      !Pending(after[id])
  {
    forall id | id in ids
      ensures id in leased && leased[id].sentAt.None? && (after[id].sentAt.Some? ==> after[id].eventId in held)
    {
      var t :| SettledAt(leased[id], after[id], t, held, backoffMs) && from <= t <= to;
    }
    if Tally(after, ids).failed == 0 { CountNone(after, ids, StillPending); }
  }

  /** A batch that Events took, marked sent. */
  lemma SentAll(before: Table, after: Table, ids: seq<nat>, from: int, t: int, held: set<string>, backoffMs: seq<int>)
    requires backoffMs != [] && Batch(before, ids) && from <= t && after == MarkSent(before, ids, t)
    requires EventIds(before, ids) <= held
    ensures AllSettled(before, after, ids, from, t, held, backoffMs)
    ensures InTable(after, ids) && Tally(after, ids) == Stats(|ids|, 0, 0)
    ensures AllFated(after, ids, WasSent)
  {
    forall id | id in ids ensures Settled(before[id], after[id], from, t, held, backoffMs) {
      assert before[id].eventId in EventIds(before, ids);
      SettledNow(before[id], after[id], from, t, held, backoffMs);
    }
    TallyAll(after, ids, WasSent);
  }

  /** The next row of a batch is still as it was, and is a batch of its own. */
  lemma RowAlone(table: Table, before: Table, ids: seq<nat>, i: nat, from: int, mid: int, held0: set<string>,
      backoffMs: seq<int>)
    requires backoffMs != [] && i < |ids| && Batch(table, ids)
    requires AllSettled(table, before, ids[..i], from, mid, held0, backoffMs)
    ensures Batch(before, [ids[i]]) && before[ids[i]] == table[ids[i]]
    ensures EventIds(before, [ids[i]]) <= EventIds(table, ids)
    ensures InTable(before, ids) && forall k :: 0 <= k < i ==> ids[k] != ids[i]
  {
    assert ids[i] in ids && ids[i] !in ids[..i];
  }

  /** Each row is what the answer to it makes of it; the first was answered at `from`. */
  ghost predicate Fated(table: Table, ids: seq<nat>, answer: nat -> Answer, from: nat) {
    forall k :: 0 <= k < |ids| ==> ids[k] in table && FateOf(table[ids[k]]) == FateFor(answer(from + k))
  }

  lemma FateOneMore(table: Table, before: Table, after: Table, ids: seq<nat>, i: nat, answer: nat -> Answer, from: nat)
    requires i < |ids| && Batch(table, ids) && before.Keys == after.Keys == table.Keys
    requires Fated(before, ids[..i], answer, from)
    requires forall id :: id in before && id !in [ids[i]] ==> after[id] == before[id]
    requires FateOf(after[ids[i]]) == FateFor(answer(from + i))
    ensures Fated(after, ids[..i + 1], answer, from)
  {
    forall k | 0 <= k < i ensures ids[k] in after && after[ids[k]] == before[ids[k]] {
      assert ids[..i][k] == ids[k];
    }
  }

  /** One more row settled: the prefix grows by it. */
  lemma SettledOneMore(table: Table, before: Table, after: Table, ids: seq<nat>, i: nat, from: int, mid: int, to: int,
                       held0: set<string>, held: set<string>, backoffMs: seq<int>)
    requires backoffMs != [] && i < |ids| && Batch(table, ids) && from <= mid <= to && held0 <= held
    requires AllSettled(table, before, ids[..i], from, mid, held0, backoffMs)
    requires AllSettled(before, after, [ids[i]], mid, to, held, backoffMs)
    ensures AllSettled(table, after, ids[..i + 1], from, to, held, backoffMs)
  {
    var x := ids[i];
    assert ids[..i + 1] == ids[..i] + [x] && x !in ids[..i];
    forall id | id in table && id in ids[..i + 1] ensures Settled(table[id], after[id], from, to, held, backoffMs) {
      if id == x {
        SettledWiden(before[x], after[x], mid, to, from, to, held, held, backoffMs);
      } else {
        SettledWiden(table[id], before[id], from, mid, from, to, held0, held, backoffMs);
      }
    }
  }

  /** These rows are settled, each as the answer to it says, and counted. */
  ghost predicate EachDone(table: Table, after: Table, ids: seq<nat>, from: int, to: int, held: set<string>,
      backoffMs: seq<int>, answer: nat -> Answer, first: nat, s: Stats)
    requires backoffMs != []
  {
    AllSettled(table, after, ids, from, to, held, backoffMs) && Fated(after, ids, answer, first)
    && InTable(after, ids) && s == Tally(after, ids)
  }

  lemma OneMoreDone(table: Table, before: Table, after: Table, ids: seq<nat>, i: nat, from: int, mid: int, to: int,
      held0: set<string>, held: set<string>, backoffMs: seq<int>, answer: nat -> Answer, first: nat, s: Stats,
      one: Stats)
    requires backoffMs != [] && i < |ids| && Batch(table, ids) && from <= mid <= to && held0 <= held
    requires EachDone(table, before, ids[..i], from, mid, held0, backoffMs, answer, first, s)
    requires AllSettled(before, after, [ids[i]], mid, to, held, backoffMs) && InTable(after, [ids[i]])
    requires one == Tally(after, [ids[i]]) && AllFated(after, [ids[i]], FateFor(answer(first + i)))
    ensures EachDone(table, after, ids[..i + 1], from, to, held, backoffMs, answer, first, s.Plus(one))
  {
    RowAlone(table, before, ids, i, from, mid, held0, backoffMs);
    assert [ids[i]][0] == ids[i];
    SettledOneMore(table, before, after, ids, i, from, mid, to, held0, held, backoffMs);
    TallyOneMore(before, after, ids, i);
    FateOneMore(table, before, after, ids, i, answer, first);
  }
}
