/**
 * The governor's books. A ledger records every reservation ever granted and how it ended; the counters of the
 * store in the process are proved to be sums over that ledger, on every run of operations with a clock that
 * never goes back.
 */
module GovernorLedger {
  import opened Prelude
  import opened Governor

  /** How a reservation stands: still to be settled (live, or lapsed once its time passed), or settled. */
  datatype Status = Open | Committed(actual: real) | Released

  datatype Entry = Entry(id: string, amount: real, keys: seq<Key>, until: int, status: Status)

  /** The store and its ledger. */
  datatype Books = Books(mem: Mem, log: seq<Entry>)

  datatype Op =
    | Reserve(id: string, slots: seq<Slot>, amount: real, ttl: int)
    | Settle(id: string, actual: Option<real>)
    | Usage(key: Key)

  /** What createGovernor lets through: amounts and actuals at least 0, and the slots windowsFor builds. */
  ghost predicate Allowed(op: Op, t: int) {
    match op
    case Reserve(_, slots, amount, ttl) => amount >= 0.0 && GoodSlots(slots, t)
    case Settle(_, actual) => actual.Some? ==> actual.value >= 0.0
    case Usage(_) => true
  }

  predicate LiveAt(e: Entry, id: string, t: int) { e.id == id && e.status.Open? && e.until > t }

  /** The entry that holds `id` at time t, or |log|. */
  function Holder(log: seq<Entry>, id: string, t: int): (i: nat)
    ensures i <= |log|
    ensures i < |log| ==> LiveAt(log[i], id, t)
    ensures forall j :: 0 <= j < i ==> !LiveAt(log[j], id, t)
  {
    if log == [] || LiveAt(log[0], id, t) then 0 else 1 + Holder(log[1..], id, t)
  }

  function StatusOf(actual: Option<real>): Status {
    match actual
    case Some(a) => Committed(a)
    case None => Released
  }

  /** One operation on the store, written into the ledger. */
  function Step(b: Books, op: Op, t: int): Books {
    match op
    case Reserve(id, slots, amount, ttl) =>
      var (m, a) := MemReserve(b.mem, id, slots, amount, ttl, t);
      Books(m, if a == Granted(false) then b.log + [Entry(id, amount, KeysOf(slots), t + ttl, Open)] else b.log)
    case Settle(id, actual) =>
      var (m, ok) := MemSettle(b.mem, id, actual, t);
      var i := Holder(b.log, id, t);
      Books(m, if ok && i < |b.log| then b.log[i := b.log[i].(status := StatusOf(actual))] else b.log)
    case Usage(key) => Books(MemUsed(b.mem, key, t).0, b.log)
  }

  // -- Sums over the ledger ---------------------------------------------------

  /** What an entry holds of each of its counters: the reserved amount, then the amount really used. */
  function Weight(e: Entry): real {
    match e.status
    case Open => e.amount
    case Committed(a) => a
    case Released => 0.0
  }

  function Charged(log: seq<Entry>, k: Key): real {
    if log == [] then 0.0
    else Charged(log[..|log| - 1], k) + (if k in log[|log| - 1].keys then Weight(log[|log| - 1]) else 0.0)
  }

  /** The reservations still open and alive. */
  function OpenSum(log: seq<Entry>, k: Key, t: int): real {
    if log == [] then 0.0
    else
      var e := log[|log| - 1];
      OpenSum(log[..|log| - 1], k, t) + (if k in e.keys && e.status.Open? && e.until > t then e.amount else 0.0)
  }

  /** The reservations that lapsed: nobody settled them in time. */
  function LapsedSum(log: seq<Entry>, k: Key, t: int): real {
    if log == [] then 0.0
    else
      var e := log[|log| - 1];
      LapsedSum(log[..|log| - 1], k, t) + (if k in e.keys && e.status.Open? && e.until <= t then e.amount else 0.0)
  }

  /** The amounts really used, of the reservations committed. */
  function CommittedSum(log: seq<Entry>, k: Key): real {
    if log == [] then 0.0
    else
      var e := log[|log| - 1];
      CommittedSum(log[..|log| - 1], k) + (if k in e.keys && e.status.Committed? then e.status.actual else 0.0)
  }

  /** By how much commits used more than they had reserved. */
  function Overrun(log: seq<Entry>, k: Key): real {
    if log == [] then 0.0
    else
      var e := log[|log| - 1];
      Overrun(log[..|log| - 1], k)
      + (if k in e.keys && e.status.Committed? then RealMax(0.0, e.status.actual - e.amount) else 0.0)
  }

  lemma {:induction false} ChargedSplits(log: seq<Entry>, k: Key, t: int)
    ensures Charged(log, k) == OpenSum(log, k, t) + LapsedSum(log, k, t) + CommittedSum(log, k)
  {
    if log != [] { ChargedSplits(log[..|log| - 1], k, t); }
  }

  lemma ChargedSnoc(log: seq<Entry>, e: Entry, k: Key)
    ensures Charged(log + [e], k) == Charged(log, k) + (if k in e.keys then Weight(e) else 0.0)
    ensures Overrun(log + [e], k) == Overrun(log, k)
            + (if k in e.keys && e.status.Committed? then RealMax(0.0, e.status.actual - e.amount) else 0.0)
  {
    assert (log + [e])[..|log|] == log;
  }

  /** Replacing one entry moves the sums by the difference of that entry. */
  lemma {:induction false} ChargedUpdate(log: seq<Entry>, i: nat, e: Entry, k: Key)
    requires i < |log| && e.keys == log[i].keys && log[i].status.Open?
    ensures Charged(log[i := e], k) == Charged(log, k) + (if k in e.keys then Weight(e) - Weight(log[i]) else 0.0)
    ensures Overrun(log[i := e], k) == Overrun(log, k)
            + (if k in e.keys && e.status.Committed? then RealMax(0.0, e.status.actual - e.amount) else 0.0)
  {
    var n := |log| - 1;
    if i == n {
      assert log[i := e][..n] == log[..n];
    } else {
      ChargedUpdate(log[..n], i, e, k);
      assert log[i := e][..n] == log[..n][i := e];
    }
  }

  ghost predicate NonNegative(log: seq<Entry>) {
    forall e :: e in log ==> e.amount >= 0.0 && Weight(e) >= 0.0
  }

  lemma {:induction false} ChargedCoversEach(log: seq<Entry>, i: nat, k: Key)
    requires NonNegative(log) && i < |log| && k in log[i].keys
    ensures Charged(log, k) >= Weight(log[i])
  {
    var n := |log| - 1;
    assert log[n] in log;
    assert NonNegative(log[..n]);
    if i < n {
      ChargedCoversEach(log[..n], i, k);
    } else {
      ChargedNonNegative(log[..n], k);
    }
  }

  lemma {:induction false} ChargedNonNegative(log: seq<Entry>, k: Key)
    requires NonNegative(log)
    ensures Charged(log, k) >= 0.0 && Overrun(log, k) >= 0.0
  {
    if log != [] {
      assert log[|log| - 1] in log;
      ChargedNonNegative(log[..|log| - 1], k);
    }
  }

  // -- What the counters do under one operation -------------------------------

  lemma {:induction false} ChargeEffect(c: map<Key, Counter>, slots: seq<Slot>, amount: real, t: int, k: Key)
    requires Distinct(KeysOf(slots))
    ensures Used(Charge(c, slots, amount, t), k) == Used(c, k) + (if k in KeysOf(slots) then amount else 0.0)
    ensures k in Charge(c, slots, amount, t) <==> k in c || k in KeysOf(slots)
    ensures k in c ==> Charge(c, slots, amount, t)[k].until == c[k].until
    ensures k !in c && k in KeysOf(slots) ==>
              exists s :: s in slots && s.key == k && Charge(c, slots, amount, t)[k].until == t + s.ttl
  {
    if slots != [] {
      var n := |slots| - 1;
      var ks, init := KeysOf(slots), slots[..n];
      assert ks == KeysOf(init) + [slots[n].key];
      assert Distinct(KeysOf(init)) by {
        forall i, j | 0 <= i < j < n ensures KeysOf(init)[i] != KeysOf(init)[j] { assert ks[i] != ks[j]; }
      }
      ChargeEffect(c, init, amount, t, k);
      if k == slots[n].key {
        assert k !in KeysOf(init) by {
          forall i | 0 <= i < n ensures KeysOf(init)[i] != k { assert ks[i] != ks[n]; }
        }
        assert slots[n] in slots;
      } else if k !in c && k in ks {
        var s :| s in init && s.key == k && Charge(c, init, amount, t)[k].until == t + s.ttl;
        assert s in slots;
      }
    }
  }

  lemma {:induction false} ShiftEffect(c: map<Key, Counter>, keys: seq<Key>, delta: real, k: Key)
    requires Distinct(keys)
    ensures Shift(c, keys, delta).Keys == c.Keys
    ensures k in c ==> Shift(c, keys, delta)[k]
                       == if k in keys then c[k].(used := RealMax(0.0, c[k].used + delta)) else c[k]
  {
    if keys != [] {
      var n := |keys| - 1;
      assert Distinct(keys[..n]);
      ShiftEffect(c, keys[..n], delta, k);
      assert keys == keys[..n] + [keys[n]];
      if keys[n] in c { ShiftEffect(c, keys[..n], delta, keys[n]); }
      if k in keys[..n] {
        var i :| 0 <= i < n && keys[..n][i] == k;
        assert keys[i] != keys[n];
      }
    }
  }

  // -- The invariant ----------------------------------------------------------

  /** Every counter of a window not yet over is the sum of the ledger, and is alive to the end of its window. */
  ghost predicate Balanced(b: Books, t: int) {
    && (forall k :: End(k) > t ==> Used(b.mem.counters, k) == Charged(b.log, k))
    && (forall k :: k in b.mem.counters ==> b.mem.counters[k].until == End(k))
    && (forall e, k :: e in b.log && k in e.keys && End(k) > t ==> k in b.mem.counters)
  }

  ghost predicate MatchesEntry(r: Reservation, e: Entry) {
    e.amount == r.amount && e.keys == r.keys && e.until == r.until
  }

  ghost predicate Held(b: Books, id: string, t: int)
    requires id in b.mem.reservations
  {
    var i := Holder(b.log, id, t);
    i < |b.log| && MatchesEntry(b.mem.reservations[id], b.log[i])
  }

  ghost predicate Kept(b: Books, i: nat, t: int)
    requires i < |b.log|
  {
    var id := b.log[i].id;
    Holder(b.log, id, t) == i && id in b.mem.reservations && MatchesEntry(b.mem.reservations[id], b.log[i])
  }

  /** The reservations alive in the store are exactly the ledger's live entries, one an id. */
  ghost predicate Tracked(b: Books, t: int) {
    && (forall id :: id in b.mem.reservations && b.mem.reservations[id].until > t ==> Held(b, id, t))
    && (forall i :: 0 <= i < |b.log| && b.log[i].status.Open? && b.log[i].until > t ==> Kept(b, i, t))
  }

  ghost predicate SoundLog(log: seq<Entry>) {
    NonNegative(log) && forall e :: e in log ==> Distinct(e.keys)
  }

  ghost predicate Inv(b: Books, t: int) {
    Balanced(b, t) && Tracked(b, t) && SoundLog(b.log)
  }

  lemma HolderLater(log: seq<Entry>, id: string, t: int, t': int)
    requires t <= t' && Holder(log, id, t) < |log| && log[Holder(log, id, t)].until > t'
    ensures Holder(log, id, t') == Holder(log, id, t)
  {
    var i := Holder(log, id, t);
    assert LiveAt(log[i], id, t');
    assert forall j :: 0 <= j < i ==> !LiveAt(log[j], id, t');
  }

  lemma SweepTracks(b: Books, t: int, t': int)
    requires Tracked(b, t) && t <= t'
    ensures Tracked(Books(Sweep(b.mem, t'), b.log), t')
  {
    var s := Books(Sweep(b.mem, t'), b.log);
    forall id | id in s.mem.reservations ensures Held(s, id, t') {
      assert Held(b, id, t);
      HolderLater(b.log, id, t, t');
    }
    forall i | 0 <= i < |s.log| && s.log[i].status.Open? && s.log[i].until > t' ensures Kept(s, i, t') {
      assert Kept(b, i, t);
      HolderLater(b.log, b.log[i].id, t, t');
    }
  }

  /** Time alone, and the sweep that runs first in every operation, keep the books. */
  lemma SweepKeeps(b: Books, t: int, t': int)
    requires Inv(b, t) && t <= t'
    ensures Inv(Books(Sweep(b.mem, t'), b.log), t')
  {
    SweepTracks(b, t, t');
    var s := Sweep(b.mem, t');
    forall k | End(k) > t' ensures Used(s.counters, k) == Charged(b.log, k) {
      assert k in b.mem.counters ==> b.mem.counters[k].until == End(k);
    }
  }

  lemma GrantBalances(b: Books, op: Op, t: int)
    requires Inv(Books(Sweep(b.mem, t), b.log), t) && op.Reserve? && Allowed(op, t)
    requires MemReserve(b.mem, op.id, op.slots, op.amount, op.ttl, t).1 == Granted(false)
    ensures Balanced(Step(b, op, t), t)
  {
    var m, b' := Sweep(b.mem, t), Step(b, op, t);
    var e := Entry(op.id, op.amount, KeysOf(op.slots), t + op.ttl, Open);
    forall k | End(k) > t ensures Used(b'.mem.counters, k) == Charged(b'.log, k) {
      ChargeEffect(m.counters, op.slots, op.amount, t, k);
      ChargedSnoc(b.log, e, k);
    }
    forall k | k in b'.mem.counters ensures b'.mem.counters[k].until == End(k) {
      ChargeEffect(m.counters, op.slots, op.amount, t, k);
    }
    forall x, k | x in b'.log && k in x.keys && End(k) > t ensures k in b'.mem.counters {
      ChargeEffect(m.counters, op.slots, op.amount, t, k);
      assert x == e || x in b.log;
    }
  }

  lemma GrantTracks(b: Books, op: Op, t: int)
    requires Tracked(Books(Sweep(b.mem, t), b.log), t) && op.Reserve?
    requires MemReserve(b.mem, op.id, op.slots, op.amount, op.ttl, t).1 == Granted(false)
    ensures Tracked(Step(b, op, t), t)
  {
    var e := Entry(op.id, op.amount, KeysOf(op.slots), t + op.ttl, Open);
    var r := Reservation(op.amount, KeysOf(op.slots), t + op.ttl);
    var m := Books(Sweep(b.mem, t), b.log);
    EntryTracks(m, Step(b, op, t), e, r, t);
  }

  /** A new entry, under an id that nobody holds, is held by its reservation; the others stay held by theirs. */
  lemma EntryTracks(b: Books, b': Books, e: Entry, r: Reservation, t: int)
    requires Tracked(b, t) && e.id !in b.mem.reservations && e.status.Open?
    requires r == Reservation(e.amount, e.keys, e.until)
    requires b'.log == b.log + [e] && b'.mem.reservations == b.mem.reservations[e.id := r]
    ensures Tracked(b', t)
  {
    var n := |b.log|;
    assert b'.log[n] == e && forall i :: 0 <= i < n ==> b'.log[i] == b.log[i];
    forall i | 0 <= i < n ensures !LiveAt(b.log[i], e.id, t) {
      assert b.log[i].status.Open? && b.log[i].until > t ==> Kept(b, i, t);
    }
    forall id | id in b'.mem.reservations && b'.mem.reservations[id].until > t ensures Held(b', id, t) {
      if id == e.id {
        HolderIs(b'.log, id, t, n);
      } else {
        assert Held(b, id, t);
        HolderIs(b'.log, id, t, Holder(b.log, id, t));
      }
    }
    forall i | 0 <= i < |b'.log| && b'.log[i].status.Open? && b'.log[i].until > t ensures Kept(b', i, t) {
      if i < n { assert Kept(b, i, t); }
      HolderIs(b'.log, b'.log[i].id, t, i);
    }
  }

  lemma HolderIs(log: seq<Entry>, id: string, t: int, i: nat)
    requires i < |log| && LiveAt(log[i], id, t)
    requires forall j :: 0 <= j < i ==> !LiveAt(log[j], id, t)
    ensures Holder(log, id, t) == i
  {
  }

  lemma ReserveKeeps(b: Books, op: Op, t: int)
    requires Inv(Books(Sweep(b.mem, t), b.log), t) && op.Reserve? && Allowed(op, t)
    ensures Inv(Step(b, op, t), t)
  {
    if MemReserve(b.mem, op.id, op.slots, op.amount, op.ttl, t).1 == Granted(false) {
      GrantBalances(b, op, t);
      GrantTracks(b, op, t);
    }
  }

  /** Settling takes back no more than the counter holds: the clamp at 0 changes nothing. */
  lemma ClampIsIdle(b: Books, id: string, actual: Option<real>, t: int, k: Key)
    requires Inv(Books(Sweep(b.mem, t), b.log), t)
    requires id in Sweep(b.mem, t).reservations && k in Sweep(b.mem, t).reservations[id].keys && End(k) > t
    requires actual.Some? ==> actual.value >= 0.0
    ensures k in Sweep(b.mem, t).counters
    ensures Used(Sweep(b.mem, t).counters, k) + Delta(Sweep(b.mem, t).reservations[id].amount, actual) >= 0.0
  {
    var i := Holder(b.log, id, t);
    assert b.log[i] in b.log;
    ChargedCoversEach(b.log, i, k);
  }

  lemma SettleBalances(b: Books, op: Op, t: int)
    requires Inv(Books(Sweep(b.mem, t), b.log), t) && op.Settle? && Allowed(op, t)
    requires op.id in Sweep(b.mem, t).reservations
    ensures Balanced(Step(b, op, t), t)
  {
    var m := Sweep(b.mem, t);
    var r, i := m.reservations[op.id], Holder(b.log, op.id, t);
    var e := b.log[i].(status := StatusOf(op.actual));
    var b' := Step(b, op, t);
    assert b.log[i] in b.log;
    forall k | End(k) > t ensures Used(b'.mem.counters, k) == Charged(b'.log, k) {
      ShiftEffect(m.counters, r.keys, Delta(r.amount, op.actual), k);
      ChargedUpdate(b.log, i, e, k);
      if k in r.keys { ClampIsIdle(b, op.id, op.actual, t, k); }
    }
    forall k | k in b'.mem.counters ensures b'.mem.counters[k].until == End(k) {
      ShiftEffect(m.counters, r.keys, Delta(r.amount, op.actual), k);
    }
    forall x, k | x in b'.log && k in x.keys && End(k) > t ensures k in b'.mem.counters {
      ShiftEffect(m.counters, r.keys, Delta(r.amount, op.actual), k);
      assert x == e || x in b.log;
    }
  }

  lemma SettleTracks(b: Books, op: Op, t: int)
    requires Tracked(Books(Sweep(b.mem, t), b.log), t) && op.Settle? && op.id in Sweep(b.mem, t).reservations
    ensures Tracked(Step(b, op, t), t)
  {
    var (m, b') := (Books(Sweep(b.mem, t), b.log), Step(b, op, t));
    var s := Holder(b.log, op.id, t);
    assert Held(m, op.id, t);
    var log := b.log[s := b.log[s].(status := StatusOf(op.actual))];
    assert b'.log == log && b'.mem.reservations == m.mem.reservations - {op.id};
    SettledTracks(m, b', op.id, StatusOf(op.actual), t);
  }

  /** Settling one entry and forgetting its reservation keeps the rest of the books in step. */
  lemma SettledTracks(m: Books, b': Books, id: string, status: Status, t: int)
    requires Tracked(m, t) && id in m.mem.reservations && Held(m, id, t) && !status.Open?
    requires b'.log == m.log[Holder(m.log, id, t) := m.log[Holder(m.log, id, t)].(status := status)]
    requires b'.mem.reservations == m.mem.reservations - {id}
    ensures Tracked(b', t)
  {
    var s := Holder(m.log, id, t);
    forall x | x in b'.mem.reservations && b'.mem.reservations[x].until > t ensures Held(b', x, t) {
      assert Held(m, x, t);
      HolderIs(b'.log, x, t, Holder(m.log, x, t));
    }
    forall i | 0 <= i < |b'.log| && b'.log[i].status.Open? && b'.log[i].until > t ensures Kept(b', i, t) {
      assert i != s && Kept(m, i, t);
      HolderIs(b'.log, m.log[i].id, t, i);
    }
  }

  lemma SettleKeeps(b: Books, op: Op, t: int)
    requires Inv(Books(Sweep(b.mem, t), b.log), t) && op.Settle? && Allowed(op, t)
    ensures Inv(Step(b, op, t), t)
  {
    if op.id in Sweep(b.mem, t).reservations {
      SettleBalances(b, op, t);
      SettleTracks(b, op, t);
      var i, b' := Holder(b.log, op.id, t), Step(b, op, t);
      forall e | e in b'.log ensures e.amount >= 0.0 && Weight(e) >= 0.0 && Distinct(e.keys) {
        var j :| 0 <= j < |b'.log| && b'.log[j] == e;
        assert b.log[j] in b.log;
      }
    }
  }

  lemma StepKeeps(b: Books, op: Op, t: int, t': int)
    requires Inv(b, t) && t <= t' && Allowed(op, t')
    ensures Inv(Step(b, op, t'), t')
  {
    SweepKeeps(b, t, t');
    match op
    case Reserve(_, _, _, _) => ReserveKeeps(b, op, t');
    case Settle(_, _) => SettleKeeps(b, op, t');
    case Usage(_) =>
  }

  // -- Every run --------------------------------------------------------------

  datatype Timed = Timed(op: Op, at: int)

  const EMPTY: Books := Books(Mem(map[], map[], map[]), [])

  function Run(ops: seq<Timed>): Books {
    if ops == [] then EMPTY else Step(Run(ops[..|ops| - 1]), ops[|ops| - 1].op, ops[|ops| - 1].at)
  }

  /** The clock never goes back and every operation is one the governor lets through. */
  ghost predicate Proper(ops: seq<Timed>) {
    && (forall i, j :: 0 <= i < j < |ops| ==> ops[i].at <= ops[j].at)
    && (forall i :: 0 <= i < |ops| ==> Allowed(ops[i].op, ops[i].at))
  }

  function LastAt(ops: seq<Timed>): int { if ops == [] then 0 else ops[|ops| - 1].at }

  lemma {:induction false} RunKeeps(ops: seq<Timed>)
    requires Proper(ops)
    ensures Inv(Run(ops), LastAt(ops))
  {
    if ops != [] {
      var init := ops[..|ops| - 1];
      RunKeeps(init);
      if init == [] {
        assert Inv(EMPTY, LastAt(ops));
        StepKeeps(EMPTY, ops[0].op, ops[0].at, ops[0].at);
      } else {
        StepKeeps(Run(init), ops[|ops| - 1].op, LastAt(init), ops[|ops| - 1].at);
      }
    }
  }

  /** The books as the next operation finds them, at any later instant. */
  lemma RunSwept(ops: seq<Timed>, now: int)
    requires Proper(ops) && (ops != [] ==> LastAt(ops) <= now)
    ensures Inv(Books(Sweep(Run(ops).mem, now), Run(ops).log), now)
  {
    RunKeeps(ops);
    if ops == [] { assert Inv(EMPTY, now); }
    SweepKeeps(Run(ops), if ops == [] then now else LastAt(ops), now);
  }

  /**
   * The books balance on every run: the counter of a window that is not over is what is reserved and alive, plus
   * what was committed, plus what lapsed unsettled; and the settlement that comes next is never clamped.
   */
  lemma BooksBalance(ops: seq<Timed>, now: int, k: Key)
    requires Proper(ops) && (ops != [] ==> LastAt(ops) <= now) && End(k) > now
    ensures var b := Run(ops);
            MemUsed(b.mem, k, now).1 == OpenSum(b.log, k, now) + CommittedSum(b.log, k) + LapsedSum(b.log, k, now)
    ensures forall id, actual: Option<real> ::
              id in Sweep(Run(ops).mem, now).reservations && k in Sweep(Run(ops).mem, now).reservations[id].keys
              && (actual.Some? ==> actual.value >= 0.0)
              ==> Used(MemSettle(Run(ops).mem, id, actual, now).0.counters, k)
                  == MemUsed(Run(ops).mem, k, now).1 + Delta(Sweep(Run(ops).mem, now).reservations[id].amount, actual)
  {
    var b := Run(ops);
    RunSwept(ops, now);
    ChargedSplits(b.log, k, now);
    var m := Sweep(b.mem, now);
    forall id, actual: Option<real> | id in m.reservations && k in m.reservations[id].keys
        && (actual.Some? ==> actual.value >= 0.0)
      ensures
        var settled := MemSettle(b.mem, id, actual, now).0.counters;
        Used(settled, k) == Used(m.counters, k) + Delta(m.reservations[id].amount, actual)
    {
      ClampIsIdle(b, id, actual, now, k);
      assert b.log[Holder(b.log, id, now)] in b.log;
      ShiftEffect(m.counters, m.reservations[id].keys, Delta(m.reservations[id].amount, actual), k);
    }
  }

  /** A refusal, and a replay, move no counter and write nothing; a refusal names a window that is really full. */
  lemma RefusalIsFree(b: Books, op: Op, now: int)
    requires op.Reserve?
    ensures var (m, a) := MemReserve(b.mem, op.id, op.slots, op.amount, op.ttl, now);
            && (a != Granted(false) ==> m == Sweep(b.mem, now) && Step(b, op, now).log == b.log)
            && (a.Refused? ==> exists s :: s in op.slots && s.key.window == a.window && a.limit == s.limit
                                && a.used == Used(m.counters, s.key) && a.used + op.amount > a.limit && a.retryMs == s.ttl)
            && (a == Granted(false) ==> forall s :: s in op.slots ==>
              Used(Sweep(b.mem, now).counters, s.key) + op.amount <= s.limit)
  {
    var m := Sweep(b.mem, now);
    var i := FirstOver(m.counters, op.slots, op.amount);
    if i < |op.slots| { assert op.slots[i] in op.slots; }
  }

  /**
   * A repeated key is free only while its reservation is open and alive: once settled or lapsed it is charged again.
   */
  lemma ReplayOnlyWhileOpen(ops: seq<Timed>, op: Op, now: int)
    requires Proper(ops) && (ops != [] ==> LastAt(ops) <= now) && op.Reserve?
    ensures MemReserve(Run(ops).mem, op.id, op.slots, op.amount, op.ttl, now).1 == Granted(true)
            <==> exists i :: 0 <= i < |Run(ops).log| && LiveAt(Run(ops).log[i], op.id, now)
  {
    var b := Run(ops);
    RunSwept(ops, now);
    var swept := Books(Sweep(b.mem, now), b.log);
    if op.id in swept.mem.reservations {
      assert Held(swept, op.id, now);
      assert LiveAt(b.log[Holder(b.log, op.id, now)], op.id, now);
    } else {
      forall i | 0 <= i < |b.log| ensures !LiveAt(b.log[i], op.id, now) {
        assert b.log[i].status.Open? && b.log[i].until > now ==> Kept(swept, i, now);
      }
    }
  }

  /** A charge and its retry under one id, with a commit in between, in one window. */
  function Retried(id: string, s: Slot, amount: real, ttl: int, actual: real, t: int, t': int): seq<Timed> {
    var again := Slot(s.key, s.limit, End(s.key) - t');
    [Timed(Reserve(id, [s], amount, ttl), t), Timed(Settle(id, Some(actual)), t),
        Timed(Reserve(id, [again], amount, ttl), t')]
  }

  lemma RetriedSteps(id: string, s: Slot, amount: real, ttl: int, actual: real, t: int, t': int)
    requires GoodSlots([s], t) && t <= t' < End(s.key) && ttl > 0 && amount >= 0.0 && actual >= 0.0
    requires amount <= s.limit && actual + amount <= s.limit
    ensures
      var ops := Retried(id, s, amount, ttl, actual, t, t');
      && Run(ops[..1]).mem == Mem(map[s.key := Counter(amount, End(s.key))],
          map[id := Reservation(amount, [s.key], t + ttl)], map[])
      && Run(ops[..2]).mem == Mem(map[s.key := Counter(actual, End(s.key))], map[], map[])
  {
    var ops := Retried(id, s, amount, ttl, actual, t, t');
    var (key, one, two) := (s.key, ops[..1], ops[..2]);
    assert s in [s];
    assert one == [ops[0]] && [ops[0]][..0] == [];
    assert two == [ops[0], ops[1]] && two[..1] == one;
    assert [s][..0] == [] && [s][1..] == [] && [key][..0] == [];
    assert KeysOf([s]) == [key];
    var m := Mem(map[key := Counter(amount, End(key))], map[id := Reservation(amount, [key], t + ttl)], map[]);
    assert Charge(map[], [s], amount, t) == m.counters;
    assert Run(one).mem == m;
    assert Sweep(m, t) == m;
    assert Shift(m.counters, [key], actual - amount) == map[key := Counter(actual, End(key))];
    assert m.reservations - {id} == map[];
  }

  /**
   * Once committed, a retried charge counts twice: the second reserve is no replay, and the counter holds both
   * charges.
   */
  lemma RetryCountsTwice(id: string, s: Slot, amount: real, ttl: int, actual: real, t: int, t': int)
    requires GoodSlots([s], t) && t <= t' < End(s.key) && ttl > 0 && amount >= 0.0 && actual >= 0.0
    requires amount <= s.limit && actual + amount <= s.limit
    ensures
      var ops := Retried(id, s, amount, ttl, actual, t, t');
      var op := ops[2].op;
      && Proper(ops) && MemReserve(Run(ops[..2]).mem, id, op.slots, amount, ttl, t').1 == Granted(false)
      && MemUsed(Run(ops).mem, s.key, t').1 == actual + amount
  {
    var ops := Retried(id, s, amount, ttl, actual, t, t');
    var (key, again) := (s.key, ops[2].op.slots[0]);
    RetriedSteps(id, s, amount, ttl, actual, t, t');
    assert s in [s] && again in [again];
    assert KeysOf([again]) == [key];
    var m := Run(ops[..2]).mem;
    assert Sweep(m, t') == m;
    assert [again][..0] == [] && [again][1..] == [];
    assert Charge(m.counters, [again], amount, t') == map[key := Counter(actual + amount, End(key))];
    assert ops[..|ops| - 1] == ops[..2];
  }

  // -- At most once, and by how much a limit can be passed --------------------

  lemma SettledHasNoHolder(b: Books, id: string, actual: Option<real>, t: int)
    requires Tracked(Books(Sweep(b.mem, t), b.log), t)
    ensures MemSettle(b.mem, id, actual, t).1 == (Holder(b.log, id, t) < |b.log|)
    ensures Holder(Step(b, Settle(id, actual), t).log, id, t) == |b.log|
  {
    var swept := Books(Sweep(b.mem, t), b.log);
    var i := Holder(b.log, id, t);
    if id in swept.mem.reservations { assert Held(swept, id, t); }
    if i < |b.log| { assert Kept(swept, i, t); }
    var log' := Step(b, Settle(id, actual), t).log;
    forall j | 0 <= j < |log'| ensures !LiveAt(log'[j], id, t) {
      assert b.log[j].status.Open? && b.log[j].until > t ==> Kept(swept, j, t);
    }
  }

  /**
   * A settlement succeeds exactly when a live open entry holds the id; that entry is then settled, and no other try
   * succeeds.
   */
  lemma SettlesOnce(ops: seq<Timed>, id: string, actual: Option<real>, now: int, again: Option<real>, later: int)
    requires Proper(ops) && (ops != [] ==> LastAt(ops) <= now) && now <= later
    ensures var b := Run(ops);
            var i := Holder(b.log, id, now);
            var b' := Step(b, Settle(id, actual), now);
            && MemSettle(b.mem, id, actual, now).1 == (i < |b.log|)
            && b'.log == (if i < |b.log| then b.log[i := b.log[i].(status := StatusOf(actual))] else b.log)
            && !MemSettle(b'.mem, id, again, later).1
  {
    RunSwept(ops, now);
    SettledHasNoHolder(Run(ops), id, actual, now);
  }

  /** An entry, once settled, is never touched again: a settled status is final on every run. */
  lemma SettledIsFinal(b: Books, op: Op, t: int)
    ensures |Step(b, op, t).log| >= |b.log|
    ensures forall i :: 0 <= i < |b.log| && !b.log[i].status.Open? ==> Step(b, op, t).log[i] == b.log[i]
  {
  }

  /** Every grant of this run on counter k was given a limit of at most `limit`. */
  ghost predicate LimitedBy(ops: seq<Timed>, k: Key, limit: real) {
    forall i, s :: 0 <= i < |ops| && ops[i].op.Reserve? && s in ops[i].op.slots && s.key == k ==> s.limit <= limit
  }

  lemma OverrunUnderGrant(b: Books, op: Op, t: int, k: Key, limit: real)
    requires op.Reserve? && MemReserve(b.mem, op.id, op.slots, op.amount, op.ttl, t).1 == Granted(false)
    requires Inv(Books(Sweep(b.mem, t), b.log), t) && Allowed(op, t) && limit >= 0.0
    requires forall s :: s in op.slots && s.key == k ==> s.limit <= limit
    requires Charged(b.log, k) <= limit + Overrun(b.log, k)
    ensures Charged(Step(b, op, t).log, k) <= limit + Overrun(Step(b, op, t).log, k)
  {
    var m := Sweep(b.mem, t);
    var e := Entry(op.id, op.amount, KeysOf(op.slots), t + op.ttl, Open);
    assert Step(b, op, t).log == b.log + [e];
    ChargedSnoc(b.log, e, k);
    ChargedNonNegative(b.log, k);
    if k in e.keys {
      var j :| 0 <= j < |op.slots| && op.slots[j].key == k;
      assert op.slots[j] in op.slots;
      assert Used(m.counters, k) + op.amount <= op.slots[j].limit;
    }
  }

  lemma OverrunUnderSettle(b: Books, op: Op, t: int, k: Key, limit: real)
    requires op.Settle? && op.id in Sweep(b.mem, t).reservations
    requires Inv(Books(Sweep(b.mem, t), b.log), t) && Allowed(op, t) && limit >= 0.0
    requires Charged(b.log, k) <= limit + Overrun(b.log, k)
    ensures Charged(Step(b, op, t).log, k) <= limit + Overrun(Step(b, op, t).log, k)
  {
    var i := Holder(b.log, op.id, t);
    assert b.log[i] in b.log;
    ChargedUpdate(b.log, i, b.log[i].(status := StatusOf(op.actual)), k);
  }

  lemma OverrunUnderStep(b: Books, op: Op, t: int, k: Key, limit: real)
    requires Inv(Books(Sweep(b.mem, t), b.log), t) && Allowed(op, t) && limit >= 0.0
    requires op.Reserve? ==> forall s :: s in op.slots && s.key == k ==> s.limit <= limit
    requires Charged(b.log, k) <= limit + Overrun(b.log, k)
    ensures Charged(Step(b, op, t).log, k) <= limit + Overrun(Step(b, op, t).log, k)
  {
    if op.Reserve? && MemReserve(b.mem, op.id, op.slots, op.amount, op.ttl, t).1 == Granted(false) {
      OverrunUnderGrant(b, op, t, k, limit);
    } else if op.Settle? && op.id in Sweep(b.mem, t).reservations {
      OverrunUnderSettle(b, op, t, k, limit);
    } else {
      assert Step(b, op, t).log == b.log;
    }
  }

  lemma {:induction false} ChargedWithinOverrun(ops: seq<Timed>, k: Key, limit: real)
    requires Proper(ops) && LimitedBy(ops, k, limit) && limit >= 0.0
    ensures Charged(Run(ops).log, k) <= limit + Overrun(Run(ops).log, k)
  {
    if ops != [] {
      var n := |ops| - 1;
      var init, last := ops[..n], ops[n];
      assert init != [] ==> LastAt(init) == ops[n - 1].at <= last.at;
      ChargedWithinOverrun(init, k, limit);
      RunSwept(init, last.at);
      assert ops[n] == last;
      OverrunUnderStep(Run(init), last.op, last.at, k, limit);
    }
  }

  /** What is used passes the limit by no more than commits used above what they had reserved. */
  lemma UsedWithinOverrun(ops: seq<Timed>, now: int, k: Key, limit: real)
    requires Proper(ops) && LimitedBy(ops, k, limit) && limit >= 0.0
    requires (ops != [] ==> LastAt(ops) <= now) && End(k) > now
    ensures MemUsed(Run(ops).mem, k, now).1 <= limit + Overrun(Run(ops).log, k)
  {
    ChargedWithinOverrun(ops, k, limit);
    BooksBalance(ops, now, k);
    ChargedSplits(Run(ops).log, k, now);
  }
}
