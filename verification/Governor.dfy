/**
 * The resource governor (src/govern.js): weighted cost units counted in several fixed windows at once,
 * reserve → commit | release, and concurrency leases. It has two stores: Maps in the process, and three Lua
 * scripts on Valkey. This module gives both stores as state machines over values (one function an operation) and
 * as classes that update their maps in place; GovernorLedger and GovernorRefinement prove what they keep.
 *
 * Amounts are reals and times are whole milliseconds. A key or entry whose expiry instant is `until` is alive
 * at `t` exactly when `t < until`, in both stores.
 */
module Governor {
  import opened Prelude

  // -- Windows ----------------------------------------------------------------

  datatype Window = Minute | Hour | Day | Month

  function Length(w: Window): (len: int)
    ensures len > 0
  {
    match w
    case Minute => 60000
    case Hour => 3600000
    case Day => 86400000
    case Month => 30 * 86400000
  }

  const WINDOWS: seq<Window> := [Minute, Hour, Day, Month]

  /** The counter key names the unit, the window, the instant it starts and who spends. */
  datatype Key = Key(unit: string, window: Window, start: int, scope: string)

  function End(k: Key): int { k.start + Length(k.window) }

  /** One window of a request: its counter, its limit and the time left in it. */
  datatype Slot = Slot(key: Key, limit: real, ttl: int)

  function SlotsFrom(ws: seq<Window>, limits: map<Window, real>, unit: string, scope: string, t: int): seq<Slot> {
    if ws == [] then []
    else
      var rest := SlotsFrom(ws[1..], limits, unit, scope, t);
      if ws[0] !in limits then rest
      else
        var start := t / Length(ws[0]) * Length(ws[0]);
        [Slot(Key(unit, ws[0], start, scope), limits[ws[0]], start + Length(ws[0]) - t)] + rest
  }

  /** The windows a policy limits, in order; a window without a limit is not counted. */
  function WindowsFor(limits: map<Window, real>, unit: string, scope: string, t: int): seq<Slot> {
    SlotsFrom(WINDOWS, limits, unit, scope, t)
  }

  function KeysOf(slots: seq<Slot>): (keys: seq<Key>)
    ensures |keys| == |slots|
    ensures forall i :: 0 <= i < |slots| ==> keys[i] == slots[i].key
  {
    seq(|slots|, i requires 0 <= i < |slots| => slots[i].key)
  }

  /** Slots as windowsFor builds them at time t: each the window that contains t, no window twice. */
  ghost predicate GoodSlots(slots: seq<Slot>, t: int) {
    && (forall s :: s in slots ==> s.key.start <= t < End(s.key) && s.ttl == End(s.key) - t)
    && Distinct(KeysOf(slots))
  }

  lemma {:induction false} SlotsFromShape(ws: seq<Window>, limits: map<Window, real>, unit: string, scope: string,
      t: int)
    ensures forall s :: s in SlotsFrom(ws, limits, unit, scope, t) ==>
              s.key.window in ws && s.key.window in limits && s.limit == limits[s.key.window]
              && s.key.unit == unit && s.key.scope == scope
              && s.key.start <= t < End(s.key) && s.ttl == End(s.key) - t
  {
    if ws != [] {
      SlotsFromShape(ws[1..], limits, unit, scope, t);
      var len := Length(ws[0]);
      assert t / len * len <= t < t / len * len + len;
    }
  }

  lemma {:induction false} SlotsFromDistinct(ws: seq<Window>, limits: map<Window, real>, unit: string, scope: string,
      t: int)
    requires Distinct(ws)
    ensures Distinct(KeysOf(SlotsFrom(ws, limits, unit, scope, t)))
  {
    if ws != [] {
      var all, rest := SlotsFrom(ws, limits, unit, scope, t), SlotsFrom(ws[1..], limits, unit, scope, t);
      SlotsFromDistinct(ws[1..], limits, unit, scope, t);
      SlotsFromShape(ws[1..], limits, unit, scope, t);
      if ws[0] in limits {
        assert all == [all[0]] + rest && all[0].key.window == ws[0];
        assert ws[0] !in ws[1..];
        forall i, j | 0 <= i < j < |all| ensures all[i].key != all[j].key {
          assert all[j] == rest[j - 1] && rest[j - 1] in rest;
          if i > 0 { assert KeysOf(rest)[i - 1] != KeysOf(rest)[j - 1]; }
        }
      }
    }
  }

  lemma {:induction false} SlotsFromComplete(ws: seq<Window>, limits: map<Window, real>, unit: string, scope: string,
      t: int, w: Window)
    requires w in ws && w in limits
    ensures exists s :: s in SlotsFrom(ws, limits, unit, scope, t) && s.key.window == w
  {
    var all := SlotsFrom(ws, limits, unit, scope, t);
    if w == ws[0] {
      assert all[0] in all;
    } else {
      SlotsFromComplete(ws[1..], limits, unit, scope, t, w);
      var s :| s in SlotsFrom(ws[1..], limits, unit, scope, t) && s.key.window == w;
      assert s in all;
    }
  }

  /** windowsFor yields one slot for each limited window and no other: the window that contains t. */
  lemma WindowsForGood(limits: map<Window, real>, unit: string, scope: string, t: int)
    ensures GoodSlots(WindowsFor(limits, unit, scope, t), t)
    ensures forall w :: w in limits <==> exists s :: s in WindowsFor(limits, unit, scope, t) && s.key.window == w
    ensures forall s :: s in WindowsFor(limits, unit, scope, t) ==>
              s.key.window in limits && s.limit == limits[s.key.window] && s.key.unit == unit && s.key.scope == scope
  {
    SlotsFromShape(WINDOWS, limits, unit, scope, t);
    SlotsFromDistinct(WINDOWS, limits, unit, scope, t);
    forall w | w in limits ensures exists s :: s in WindowsFor(limits, unit, scope, t) && s.key.window == w {
      match w {
        case Minute => assert WINDOWS[0] == w;
        case Hour => assert WINDOWS[1] == w;
        case Day => assert WINDOWS[2] == w;
        case Month => assert WINDOWS[3] == w;
      }
      SlotsFromComplete(WINDOWS, limits, unit, scope, t, w);
    }
  }

  /** The windows of a clock in milliseconds: whole minutes, hours, days, and 30 days. */
  ghost predicate Aligned(w: Window, from: int, to: int) {
    match w
    case Minute => from % 60000 == 0 && to == from + 60000
    case Hour => from % 3600000 == 0 && to == from + 3600000
    case Day => from % 86400000 == 0 && to == from + 86400000
    case Month => from % 2592000000 == 0 && to == from + 2592000000
  }

  lemma {:induction false} SlotsFromAligned(ws: seq<Window>, limits: map<Window, real>, unit: string, scope: string,
      t: int)
    ensures forall s :: s in SlotsFrom(ws, limits, unit, scope, t) ==>
              Aligned(s.key.window, s.key.start, End(s.key))
  {
    if ws != [] { SlotsFromAligned(ws[1..], limits, unit, scope, t); }
  }

  lemma OneAligned(w: Window, from: int, to: int, from': int, to': int, t: int)
    requires Aligned(w, from, to) && Aligned(w, from', to') && from <= t < to && from' <= t < to'
    ensures from == from'
  {
    match w
    case Minute => SameMultiple(from / 60000, from' / 60000, 60000);
    case Hour => SameMultiple(from / 3600000, from' / 3600000, 3600000);
    case Day => SameMultiple(from / 86400000, from' / 86400000, 86400000);
    case Month => SameMultiple(from / 2592000000, from' / 2592000000, 2592000000);
  }

  lemma SameMultiple(x: int, y: int, len: int)
    requires len > 0 && x * len - len < y * len < x * len + len
    ensures x == y
  {
    if x < y { Spaced(x, y, len); }
    if y < x { Spaced(y, x, len); }
  }

  lemma Spaced(x: int, y: int, len: int)
    requires x < y && len > 0
    ensures x * len + len <= y * len
  {
    var d := y - x - 1;
    assert d * len >= 0;
    assert y * len == (x + 1 + d) * len == x * len + len + d * len;
  }

  /**
   * Whose counter a request at t' raises: that of every other request of its minute, hour, day or 30 days, and of no
   * other one.
   */
  lemma WindowsShared(limits: map<Window, real>, unit: string, scope: string, t': int, s: Slot, from: int, to: int)
    requires s in WindowsFor(limits, unit, scope, t') && Aligned(s.key.window, from, to)
    ensures Aligned(s.key.window, s.key.start, End(s.key))
    ensures s.key == Key(unit, s.key.window, from, scope) <==> from <= t' < to
  {
    SlotsFromAligned(WINDOWS, limits, unit, scope, t');
    WindowsForGood(limits, unit, scope, t');
    if from <= t' < to { OneAligned(s.key.window, from, to, s.key.start, End(s.key), t'); }
  }

  // -- Answers ----------------------------------------------------------------

  datatype Answer =
    | Granted(replay: bool)
    | Refused(window: Window, limit: real, used: real, retryMs: int)

  // -- The store in the process -----------------------------------------------

  datatype Counter = Counter(used: real, until: int)
  datatype Reservation = Reservation(amount: real, keys: seq<Key>, until: int)
  type Leases = map<string, int>
  datatype Mem = Mem(counters: map<Key, Counter>, reservations: map<string, Reservation>, leases: map<string, Leases>)

  function LiveCounters(c: map<Key, Counter>, t: int): map<Key, Counter> {
    map k | k in c && c[k].until > t :: c[k]
  }

  function LiveReservations(r: map<string, Reservation>, t: int): map<string, Reservation> {
    map id | id in r && r[id].until > t :: r[id]
  }

  function LiveLeases(m: Leases, t: int): Leases {
    map id | id in m && m[id] > t :: m[id]
  }

  function Sweep(m: Mem, t: int): Mem {
    m.(counters := LiveCounters(m.counters, t), reservations := LiveReservations(m.reservations, t))
  }

  function Used(c: map<Key, Counter>, k: Key): real { if k in c then c[k].used else 0.0 }

  /** The first window the amount does not fit in, or |slots|. */
  function FirstOver(c: map<Key, Counter>, slots: seq<Slot>, amount: real): (i: nat)
    ensures i <= |slots|
    ensures forall j :: 0 <= j < i ==> Used(c, slots[j].key) + amount <= slots[j].limit
    ensures i < |slots| ==> Used(c, slots[i].key) + amount > slots[i].limit
  {
    if slots == [] || Used(c, slots[0].key) + amount > slots[0].limit then 0
    else 1 + FirstOver(c, slots[1..], amount)
  }

  /** Every slot's counter raised by the amount; a new counter lives to the end of its window. */
  function Charge(c: map<Key, Counter>, slots: seq<Slot>, amount: real, t: int): map<Key, Counter> {
    if slots == [] then c
    else
      var n := |slots| - 1;
      var rest := Charge(c, slots[..n], amount, t);
      var k := slots[n].key;
      rest[k := if k in rest then Counter(rest[k].used + amount, rest[k].until) else Counter(amount, t + slots[n].ttl)]
  }

  function MemReserve(m0: Mem, id: string, slots: seq<Slot>, amount: real, ttl: int, t: int): (Mem, Answer) {
    var m := Sweep(m0, t);
    if id in m.reservations then (m, Granted(true))
    else
      var i := FirstOver(m.counters, slots, amount);
      if i < |slots| then
        (m, Refused(slots[i].key.window, slots[i].limit, Used(m.counters, slots[i].key), slots[i].ttl))
      else
        (m.(counters := Charge(m.counters, slots, amount, t),
            reservations := m.reservations[id := Reservation(amount, KeysOf(slots), t + ttl)]),
         Granted(false))
  }

  /** Every listed counter that is still there moved by delta, never below 0. */
  function Shift(c: map<Key, Counter>, keys: seq<Key>, delta: real): map<Key, Counter> {
    if keys == [] then c
    else
      var n := |keys| - 1;
      var rest := Shift(c, keys[..n], delta);
      if keys[n] in rest then rest[keys[n] := rest[keys[n]].(used := RealMax(0.0, rest[keys[n]].used + delta))]
      else rest
  }

  function Delta(amount: real, actual: Option<real>): real {
    match actual
    case Some(a) => a - amount
    case None => -amount
  }

  function MemSettle(m0: Mem, id: string, actual: Option<real>, t: int): (Mem, bool) {
    var m := Sweep(m0, t);
    if id !in m.reservations then (m, false)
    else
      var r := m.reservations[id];
      (m.(counters := Shift(m.counters, r.keys, Delta(r.amount, actual)), reservations := m.reservations - {id}), true)
  }

  function MemUsed(m0: Mem, k: Key, t: int): (Mem, real) {
    var m := Sweep(m0, t);
    (m, Used(m.counters, k))
  }

  function LeasesOf(m: Mem, key: string): Leases { if key in m.leases then m.leases[key] else map[] }

  function MemLease(m: Mem, key: string, id: string, max: int, ttl: int, t: int): (Mem, bool) {
    var live := LiveLeases(LeasesOf(m, key), t);
    if |live| >= max then (if key in m.leases then m.(leases := m.leases[key := live]) else m, false)
    else (m.(leases := m.leases[key := live[id := t + ttl]]), true)
  }

  function MemUnlease(m: Mem, key: string, id: string): Mem {
    if key in m.leases then m.(leases := m.leases[key := m.leases[key] - {id}]) else m
  }

  /** The Maps of memoryStore, updated in place. */
  class MemoryStore {
    var counters: map<Key, Counter>
    var reservations: map<string, Reservation>
    var leases: map<string, Leases>

    ghost function View(): Mem
      reads this
    {
      Mem(counters, reservations, leases)
    }

    constructor ()
      ensures View() == Mem(map[], map[], map[])
    {
      counters, reservations, leases := map[], map[], map[];
    }

    method SweepExpired(t: int)
      modifies this
      ensures View() == Sweep(old(View()), t)
    {
      var ks := counters.Keys;
      while ks != {}
        invariant ks <= old(counters.Keys) && reservations == old(reservations) && leases == old(leases)
        invariant counters == map k | k in old(counters) && (k in ks || old(counters)[k].until > t) :: old(counters)[k]
        decreases |ks|
      {
        var k :| k in ks;
        if counters[k].until <= t { counters := counters - {k}; }
        ks := ks - {k};
      }
      var ids := reservations.Keys;
      while ids != {}
        invariant ids <= old(reservations.Keys) && leases == old(leases)
        invariant counters == LiveCounters(old(counters), t)
        invariant reservations == map i | i in old(reservations)
            && (i in ids || old(reservations)[i].until > t) :: old(reservations)[i]
        decreases |ids|
      {
        var i :| i in ids;
        if reservations[i].until <= t { reservations := reservations - {i}; }
        ids := ids - {i};
      }
    }

    method Reserve(id: string, slots: seq<Slot>, amount: real, ttl: int, t: int) returns (a: Answer)
      modifies this
      ensures (View(), a) == MemReserve(old(View()), id, slots, amount, ttl, t)
    {
      SweepExpired(t);
      if id in reservations { return Granted(true); }
      ghost var swept := counters;
      var i := 0;
      while i < |slots|
        invariant 0 <= i <= |slots|
        invariant View() == Sweep(old(View()), t)
        invariant FirstOver(counters, slots, amount) == i + FirstOver(counters, slots[i..], amount)
      {
        var used := if slots[i].key in counters then counters[slots[i].key].used else 0.0;
        assert slots[i..][1..] == slots[i + 1..];
        if used + amount > slots[i].limit {
          return Refused(slots[i].key.window, slots[i].limit, used, slots[i].ttl);
        }
        i := i + 1;
      }
      i := 0;
      while i < |slots|
        invariant 0 <= i <= |slots|
        invariant counters == Charge(swept, slots[..i], amount, t)
        invariant reservations == Sweep(old(View()), t).reservations && leases == old(leases)
      {
        var k := slots[i].key;
        var c := if k in counters then counters[k] else Counter(0.0, t + slots[i].ttl);
        counters := counters[k := c.(used := c.used + amount)];
        assert slots[..i + 1][..i] == slots[..i];
        i := i + 1;
      }
      assert slots[..i] == slots;
      reservations := reservations[id := Reservation(amount, KeysOf(slots), t + ttl)];
      a := Granted(false);
    }

    method Settle(id: string, actual: Option<real>, t: int) returns (ok: bool)
      modifies this
      ensures (View(), ok) == MemSettle(old(View()), id, actual, t)
    {
      SweepExpired(t);
      if id !in reservations { return false; }
      var r := reservations[id];
      var delta := Delta(r.amount, actual);
      ghost var swept := counters;
      var i := 0;
      while i < |r.keys|
        invariant 0 <= i <= |r.keys|
        invariant counters == Shift(swept, r.keys[..i], delta)
        invariant reservations == Sweep(old(View()), t).reservations && leases == old(leases)
      {
        var k := r.keys[i];
        if k in counters {
          counters := counters[k := counters[k].(used := RealMax(0.0, counters[k].used + delta))];
        }
        assert r.keys[..i + 1][..i] == r.keys[..i];
        i := i + 1;
      }
      assert r.keys[..i] == r.keys;
      reservations := reservations - {id};
      ok := true;
    }

    method UsedAt(k: Key, t: int) returns (used: real)
      modifies this
      ensures (View(), used) == MemUsed(old(View()), k, t)
    {
      SweepExpired(t);
      used := if k in counters then counters[k].used else 0.0;
    }

    method Lease(key: string, id: string, max: int, ttl: int, t: int) returns (ok: bool)
      modifies this
      ensures (View(), ok) == MemLease(old(View()), key, id, max, ttl, t)
    {
      var m := if key in leases then leases[key] else map[];
      ghost var all := m;
      var ids := m.Keys;
      while ids != {}
        invariant ids <= all.Keys && View() == old(View())
        invariant m == map i | i in all && (i in ids || all[i] > t) :: all[i]
        decreases |ids|
      {
        var i :| i in ids;
        if m[i] <= t { m := m - {i}; }
        ids := ids - {i};
      }
      assert m == LiveLeases(all, t);
      if key in leases { leases := leases[key := m]; }
      if |m| >= max { return false; }
      leases := leases[key := m[id := t + ttl]];
      assert leases == old(leases)[key := m[id := t + ttl]];
      ok := true;
    }

    method Unlease(key: string, id: string)
      modifies this
      ensures View() == MemUnlease(old(View()), key, id)
    {
      if key in leases { leases := leases[key := leases[key] - {id}]; }
    }
  }

  // -- The store on Valkey: one function a Lua script -------------------------

  /** How much longer than its window a counter key lives, and than its last lease a lease set. */
  const GRACE: int := 5000

  /** A key with no expiry (None) lives for ever. */
  datatype VCounter = VCounter(value: real, expires: Option<int>)
  datatype VLeases = VLeases(members: Leases, expires: int)
  datatype Valkey = Valkey(counters: map<Key, VCounter>, reservations: map<string, Reservation>,
      leases: map<string, VLeases>)

  predicate Alive(c: VCounter, t: int) { c.expires.None? || c.expires.value > t }

  /** What the server holds at time t: expired keys are gone. */
  function Expire(v: Valkey, t: int): Valkey {
    Valkey(map k | k in v.counters && Alive(v.counters[k], t) :: v.counters[k],
           LiveReservations(v.reservations, t),
           map k | k in v.leases && v.leases[k].expires > t :: v.leases[k])
  }

  /** A key is gone from the instant it expires at. */
  lemma ExpiryIs(v: Valkey, k: Key, t: int)
    ensures k in Expire(v, t).counters
            <==> k in v.counters && (v.counters[k].expires.Some? ==> t < v.counters[k].expires.value)
  {
  }

  function Get(c: map<Key, VCounter>, k: Key): real { if k in c then c[k].value else 0.0 }

  function VFirstOver(c: map<Key, VCounter>, slots: seq<Slot>, amount: real): (i: nat)
    ensures i <= |slots|
    ensures forall j :: 0 <= j < i ==> Get(c, slots[j].key) + amount <= slots[j].limit
    ensures i < |slots| ==> Get(c, slots[i].key) + amount > slots[i].limit
  {
    if slots == [] || Get(c, slots[0].key) + amount > slots[0].limit then 0
    else 1 + VFirstOver(c, slots[1..], amount)
  }

  /** INCRBYFLOAT, then PEXPIRE: the expiry is set again at every charge. */
  function VCharge(c: map<Key, VCounter>, slots: seq<Slot>, amount: real, t: int): map<Key, VCounter> {
    if slots == [] then c
    else
      var n := |slots| - 1;
      var rest := VCharge(c, slots[..n], amount, t);
      rest[slots[n].key := VCounter(Get(rest, slots[n].key) + amount, Some(t + Max(1, slots[n].ttl) + GRACE))]
  }

  function VReserve(v0: Valkey, id: string, slots: seq<Slot>, amount: real, ttl: int, t: int): (Valkey, Answer) {
    var v := Expire(v0, t);
    if id in v.reservations then (v, Granted(true))
    else
      var i := VFirstOver(v.counters, slots, amount);
      if i < |slots| then (v, Refused(slots[i].key.window, slots[i].limit, Get(v.counters, slots[i].key),
          Max(1, slots[i].ttl)))
      else
        (v.(counters := VCharge(v.counters, slots, amount, t),
            reservations := v.reservations[id := Reservation(amount, KeysOf(slots), t + ttl)]),
         Granted(false))
  }

  /** INCRBYFLOAT creates a missing key, with no expiry; a negative value is set to 0 and keeps its expiry. */
  function VShift(c: map<Key, VCounter>, keys: seq<Key>, delta: real): map<Key, VCounter> {
    if keys == [] then c
    else
      var n := |keys| - 1;
      var rest := VShift(c, keys[..n], delta);
      rest[keys[n] := VCounter(RealMax(0.0, Get(rest, keys[n]) + delta),
                               if keys[n] in rest then rest[keys[n]].expires else None)]
  }

  function VSettle(v0: Valkey, id: string, actual: Option<real>, t: int): (Valkey, bool) {
    var v := Expire(v0, t);
    if id !in v.reservations then (v, false)
    else
      var r := v.reservations[id];
      (v.(counters := VShift(v.counters, r.keys, Delta(r.amount, actual)), reservations := v.reservations - {id}), true)
  }

  function VUsed(v0: Valkey, k: Key, t: int): (Valkey, real) {
    var v := Expire(v0, t);
    (v, Get(v.counters, k))
  }

  function MembersOf(v: Valkey, key: string): Leases { if key in v.leases then v.leases[key].members else map[] }

  /** ZREMRANGEBYSCORE, ZCARD, ZADD, then PEXPIRE of the whole set from this lease's ttl. */
  function VLease(v0: Valkey, key: string, id: string, max: int, ttl: int, t: int): (Valkey, bool) {
    var v := Expire(v0, t);
    var live := LiveLeases(MembersOf(v, key), t);
    if |live| >= max then
      (if key in v.leases then v.(leases := v.leases[key := v.leases[key].(members := live)]) else v, false)
    else (v.(leases := v.leases[key := VLeases(live[id := t + ttl], t + ttl + GRACE)]), true)
  }

  function VUnlease(v0: Valkey, key: string, id: string, t: int): Valkey {
    var v := Expire(v0, t);
    if key in v.leases then v.(leases := v.leases[key := v.leases[key].(members := v.leases[key].members - {id})])
    else v
  }

  /** The server the scripts run on; each method is one script, run alone. `t` is the server's clock. */
  class ValkeyStore {
    var counters: map<Key, VCounter>
    var reservations: map<string, Reservation>
    var leases: map<string, VLeases>

    ghost function View(): Valkey
      reads this
    {
      Valkey(counters, reservations, leases)
    }

    constructor ()
      ensures View() == Valkey(map[], map[], map[])
    {
      counters, reservations, leases := map[], map[], map[];
    }

    /** The server drops what has expired before any command sees it. */
    method DropExpired(t: int)
      modifies this
      ensures View() == Expire(old(View()), t)
    {
      counters := map k | k in counters && Alive(counters[k], t) :: counters[k];
      reservations := LiveReservations(reservations, t);
      leases := map k | k in leases && leases[k].expires > t :: leases[k];
    }

    method Reserve(id: string, slots: seq<Slot>, amount: real, ttl: int, t: int) returns (a: Answer)
      modifies this
      ensures (View(), a) == VReserve(old(View()), id, slots, amount, ttl, t)
    {
      DropExpired(t);
      if id in reservations { return Granted(true); }
      ghost var held := counters;
      var i := 0;
      while i < |slots|
        invariant 0 <= i <= |slots|
        invariant View() == Expire(old(View()), t)
        invariant VFirstOver(counters, slots, amount) == i + VFirstOver(counters, slots[i..], amount)
      {
        var used := if slots[i].key in counters then counters[slots[i].key].value else 0.0;
        assert slots[i..][1..] == slots[i + 1..];
        if used + amount > slots[i].limit {
          return Refused(slots[i].key.window, slots[i].limit, used, Max(1, slots[i].ttl));
        }
        i := i + 1;
      }
      i := 0;
      while i < |slots|
        invariant 0 <= i <= |slots|
        invariant counters == VCharge(held, slots[..i], amount, t)
        invariant reservations == Expire(old(View()), t).reservations && leases == Expire(old(View()), t).leases
      {
        var k := slots[i].key;
        var value := (if k in counters then counters[k].value else 0.0) + amount;
        counters := counters[k := VCounter(value, Some(t + Max(1, slots[i].ttl) + GRACE))];
        assert slots[..i + 1][..i] == slots[..i];
        i := i + 1;
      }
      assert slots[..i] == slots;
      reservations := reservations[id := Reservation(amount, KeysOf(slots), t + ttl)];
      a := Granted(false);
    }

    /** The loop of the settling script over the reservation's counters. */
    method ShiftAll(keys: seq<Key>, delta: real)
      modifies this`counters
      ensures counters == VShift(old(counters), keys, delta)
    {
      var i := 0;
      while i < |keys|
        invariant 0 <= i <= |keys|
        invariant counters == VShift(old(counters), keys[..i], delta)
      {
        var k := keys[i];
        var value := (if k in counters then counters[k].value else 0.0) + delta;
        var expires := if k in counters then counters[k].expires else None;
        counters := counters[k := VCounter(value, expires)];
        if value < 0.0 { counters := counters[k := VCounter(0.0, expires)]; }
        assert keys[..i + 1][..i] == keys[..i];
        i := i + 1;
      }
      assert keys[..i] == keys;
    }

    method Settle(id: string, actual: Option<real>, t: int) returns (ok: bool)
      modifies this
      ensures (View(), ok) == VSettle(old(View()), id, actual, t)
    {
      DropExpired(t);
      if id !in reservations { return false; }
      var r := reservations[id];
      reservations := reservations - {id};
      ShiftAll(r.keys, Delta(r.amount, actual));
      ok := true;
    }

    method UsedAt(k: Key, t: int) returns (used: real)
      modifies this
      ensures (View(), used) == VUsed(old(View()), k, t)
    {
      DropExpired(t);
      used := if k in counters then counters[k].value else 0.0;
    }

    method Lease(key: string, id: string, max: int, ttl: int, t: int) returns (ok: bool)
      modifies this
      ensures (View(), ok) == VLease(old(View()), key, id, max, ttl, t)
    {
      DropExpired(t);
      var live := LiveLeases(if key in leases then leases[key].members else map[], t);
      if key in leases { leases := leases[key := leases[key].(members := live)]; }
      if |live| >= max { return false; }
      leases := leases[key := VLeases(live[id := t + ttl], t + ttl + GRACE)];
      assert leases == Expire(old(View()), t).leases[key := VLeases(live[id := t + ttl], t + ttl + GRACE)];
      ok := true;
    }

    method Unlease(key: string, id: string, t: int)
      modifies this
      ensures View() == VUnlease(old(View()), key, id, t)
    {
      DropExpired(t);
      if key in leases { leases := leases[key := leases[key].(members := leases[key].members - {id})]; }
    }
  }
}
