/**
 * The Valkey scripts against the store in the process: on every run with a clock that never goes back the two
 * give the same answers, although a script's counters outlive their windows and a settlement may recreate one for
 * ever. Leases agree too exactly as long as the ttls used on one key are within five seconds of each other.
 */
module GovernorRefinement {
  import opened Prelude
  import opened Governor

  datatype Op =
    | Reserve(id: string, slots: seq<Slot>, amount: real, ttl: int)
    | Settle(id: string, actual: Option<real>)
    | Usage(key: Key)
    | Lease(on: string, id: string, max: int, ttl: int)
    | Unlease(on: string, id: string)

  datatype Reply = Reserved(a: Answer) | Settled(ok: bool) | UsedNow(used: real) | Leased(ok: bool) | Done

  function MemStep(m: Mem, op: Op, t: int): (Mem, Reply) {
    match op
    case Reserve(id, slots, amount, ttl) => var (m', a) := MemReserve(m, id, slots, amount, ttl, t); (m', Reserved(a))
    case Settle(id, actual) => var (m', ok) := MemSettle(m, id, actual, t); (m', Settled(ok))
    case Usage(key) => var (m', u) := MemUsed(m, key, t); (m', UsedNow(u))
    case Lease(on, id, max, ttl) => var (m', ok) := MemLease(m, on, id, max, ttl, t); (m', Leased(ok))
    case Unlease(on, id) => (MemUnlease(m, on, id), Done)
  }

  function ValkeyStep(v: Valkey, op: Op, t: int): (Valkey, Reply) {
    match op
    case Reserve(id, slots, amount, ttl) => var (v', a) := VReserve(v, id, slots, amount, ttl, t); (v', Reserved(a))
    case Settle(id, actual) => var (v', ok) := VSettle(v, id, actual, t); (v', Settled(ok))
    case Usage(key) => var (v', u) := VUsed(v, key, t); (v', UsedNow(u))
    case Lease(on, id, max, ttl) => var (v', ok) := VLease(v, on, id, max, ttl, t); (v', Leased(ok))
    case Unlease(on, id) => (VUnlease(v, on, id, t), Done)
  }

  // -- The relation between the two stores ------------------------------------

  /** Counters agree on every window that is not over; a script's counter of such a window outlives it. */
  ghost predicate SameCounter(m: Mem, v: Valkey, k: Key) {
    && (k in m.counters <==> k in v.counters)
    && (k in m.counters ==> m.counters[k].used == v.counters[k].value && m.counters[k].until == End(k)
                            && v.counters[k].expires == Some(End(k) + GRACE))
  }

  ghost predicate SameCounters(m: Mem, v: Valkey, t: int) {
    forall k :: End(k) > t ==> SameCounter(m, v, k)
  }

  /** No counter in the process outlives its window, so none of a window that is over survives a sweep. */
  ghost predicate OwnWindow(m: Mem) {
    forall k :: k in m.counters ==> m.counters[k].until == End(k)
  }

  ghost predicate SameReservations(m: Mem, v: Valkey, t: int) {
    LiveReservations(m.reservations, t) == LiveReservations(v.reservations, t)
  }

  /** A reservation's counters are there as long as their windows are. */
  ghost predicate Backed(m: Mem, t: int) {
    forall id, k :: id in m.reservations && m.reservations[id].until > t && k in m.reservations[id].keys && End(k) > t
      ==> k in m.counters
  }

  ghost predicate Accounts(m: Mem, v: Valkey, t: int) {
    SameCounters(m, v, t) && OwnWindow(m) && SameReservations(m, v, t) && Backed(m, t)
  }

  /** The lease sets of one key hold the same live members. */
  ghost predicate SameOn(m: Mem, v: Valkey, on: string, t: int) {
    LiveLeases(LeasesOf(m, on), t) == LiveLeases(MembersOf(v, on), t)
  }

  ghost predicate SameLeases(m: Mem, v: Valkey, t: int) {
    forall on :: SameOn(m, v, on, t)
  }

  /** What createGovernor asks of a store: slots built by windowsFor, and the use of a window that is not over. */
  ghost predicate Allowed(op: Op, t: int) {
    && (op.Reserve? ==> GoodSlots(op.slots, t))
    && (op.Usage? ==> End(op.key) > t)
  }

  // -- Time alone keeps the relation ------------------------------------------

  lemma AccountsLater(m: Mem, v: Valkey, t: int, t': int)
    requires Accounts(m, v, t) && t <= t'
    ensures Accounts(m, Expire(v, t'), t')
  {
    var v' := Expire(v, t');
    forall k | End(k) > t' ensures SameCounter(m, v', k) { assert SameCounter(m, v, k); }
    var a, b := LiveReservations(m.reservations, t), LiveReservations(v.reservations, t);
    assert LiveReservations(m.reservations, t') == LiveReservations(a, t');
    assert LiveReservations(v.reservations, t') == LiveReservations(b, t');
    assert LiveReservations(v'.reservations, t') == LiveReservations(v.reservations, t');
  }

  lemma AccountsSwept(m: Mem, v: Valkey, t: int)
    requires Accounts(m, Expire(v, t), t)
    ensures Accounts(Sweep(m, t), Expire(v, t), t)
    ensures Sweep(m, t).reservations == Expire(v, t).reservations
  {
    var m', v' := Sweep(m, t), Expire(v, t);
    forall k | End(k) > t ensures SameCounter(m', v', k) { assert SameCounter(m, v', k); }
    assert LiveReservations(v'.reservations, t) == v'.reservations;
    assert LiveReservations(m'.reservations, t) == m'.reservations;
  }

  // -- Reserve ----------------------------------------------------------------

  lemma {:induction false} SameFirstOver(m: Mem, v: Valkey, slots: seq<Slot>, amount: real, t: int)
    requires SameCounters(m, v, t) && (forall s :: s in slots ==> End(s.key) > t)
    ensures FirstOver(m.counters, slots, amount) == VFirstOver(v.counters, slots, amount)
    ensures forall s :: s in slots ==> Used(m.counters, s.key) == Get(v.counters, s.key)
  {
    forall s | s in slots ensures Used(m.counters, s.key) == Get(v.counters, s.key) {
      assert SameCounter(m, v, s.key);
    }
    if slots != [] {
      assert slots[0] in slots;
      SameFirstOver(m, v, slots[1..], amount, t);
    }
  }

  lemma {:induction false} SameCharge(m: Mem, v: Valkey, slots: seq<Slot>, amount: real, t: int)
    requires SameCounters(m, v, t) && OwnWindow(m)
    requires forall s :: s in slots ==> End(s.key) > t && s.ttl == End(s.key) - t
    ensures SameCounters(m.(counters := Charge(m.counters, slots, amount, t)),
        v.(counters := VCharge(v.counters, slots, amount, t)), t)
    ensures OwnWindow(m.(counters := Charge(m.counters, slots, amount, t)))
    ensures m.counters.Keys <= Charge(m.counters, slots, amount, t).Keys
    ensures forall s :: s in slots ==> s.key in Charge(m.counters, slots, amount, t)
  {
    var m' := m.(counters := Charge(m.counters, slots, amount, t));
    var v' := v.(counters := VCharge(v.counters, slots, amount, t));
    if slots == [] {
      forall k | End(k) > t ensures SameCounter(m', v', k) { assert SameCounter(m, v, k); }
    } else {
      var n := |slots| - 1;
      assert slots[n] in slots;
      SameCharge(m, v, slots[..n], amount, t);
      var mi := m.(counters := Charge(m.counters, slots[..n], amount, t));
      var vi := v.(counters := VCharge(v.counters, slots[..n], amount, t));
      forall k | End(k) > t ensures SameCounter(m', v', k) { assert SameCounter(mi, vi, k); }
      assert slots == slots[..n] + [slots[n]];
    }
  }

  lemma SlotsEnd(slots: seq<Slot>, t: int)
    requires GoodSlots(slots, t)
    ensures forall s :: s in slots ==> End(s.key) > t && s.ttl == End(s.key) - t && s.ttl >= 1
  {
  }

  /** The Maps with one reservation more. */
  function GrantedMem(m: Mem, id: string, slots: seq<Slot>, amount: real, until: int, t: int): Mem {
    m.(counters := Charge(m.counters, slots, amount, t),
        reservations := m.reservations[id := Reservation(amount, KeysOf(slots), until)])
  }

  function GrantedValkey(v: Valkey, id: string, slots: seq<Slot>, amount: real, until: int, t: int): Valkey {
    v.(counters := VCharge(v.counters, slots, amount, t),
        reservations := v.reservations[id := Reservation(amount, KeysOf(slots), until)])
  }

  /** A reservation that is granted keeps the books of the two stores in step. */
  lemma GrantAgrees(m: Mem, v: Valkey, id: string, slots: seq<Slot>, amount: real, until: int, t: int)
    requires Accounts(m, v, t) && m.reservations == v.reservations && GoodSlots(slots, t)
    ensures Accounts(GrantedMem(m, id, slots, amount, until, t), GrantedValkey(v, id, slots, amount, until, t), t)
  {
    var (m', v') := (GrantedMem(m, id, slots, amount, until, t), GrantedValkey(v, id, slots, amount, until, t));
    SlotsEnd(slots, t);
    SameCharge(m, v, slots, amount, t);
    forall k | End(k) > t ensures SameCounter(m', v', k) {
      assert SameCounter(m.(counters := m'.counters), v.(counters := v'.counters), k);
    }
    forall x, k | x in m'.reservations && m'.reservations[x].until > t && k in m'.reservations[x].keys && End(k) > t
      ensures k in m'.counters
    {
      if x == id {
        var j :| 0 <= j < |slots| && slots[j].key == k;
        assert slots[j] in slots;
      }
    }
  }

  /** Nothing is granted: the key is open already, or some window is full. */
  predicate Refuses(m: Mem, op: Op)
    requires op.Reserve?
  {
    op.id in m.reservations || FirstOver(m.counters, op.slots, op.amount) < |op.slots|
  }

  /** What a reserve leaves: the swept stores, or both with the grant. */
  lemma ReserveOnMem(m: Mem, op: Op, t: int)
    requires op.Reserve?
    ensures
      var m0 := Sweep(m, t);
      MemStep(m, op, t).0 == if Refuses(m0, op) then m0 else GrantedMem(m0, op.id, op.slots, op.amount, t + op.ttl, t)
  {
  }

  lemma ReserveOnValkey(m0: Mem, v: Valkey, op: Op, t: int)
    requires op.Reserve? && m0.reservations == Expire(v, t).reservations
    requires FirstOver(m0.counters, op.slots, op.amount) == VFirstOver(Expire(v, t).counters, op.slots, op.amount)
    ensures
      var v0 := Expire(v, t);
      var granted := GrantedValkey(v0, op.id, op.slots, op.amount, t + op.ttl, t);
      ValkeyStep(v, op, t).0 == if Refuses(m0, op) then v0 else granted
  {
  }

  lemma ReserveAnswers(m: Mem, v: Valkey, op: Op, t: int)
    requires op.Reserve? && Sweep(m, t).reservations == Expire(v, t).reservations
    requires FirstOver(Sweep(m, t).counters, op.slots, op.amount) == VFirstOver(Expire(v, t).counters, op.slots, op.amount)
    requires forall s :: s in op.slots ==>
      Used(Sweep(m, t).counters, s.key) == Get(Expire(v, t).counters, s.key) && s.ttl >= 1
    ensures MemStep(m, op, t).1 == ValkeyStep(v, op, t).1
  {
    var i := FirstOver(Sweep(m, t).counters, op.slots, op.amount);
    if i < |op.slots| { assert op.slots[i] in op.slots; }
  }

  lemma ReserveStates(m0: Mem, v0: Valkey, m': Mem, v': Valkey, op: Op, t: int)
    requires op.Reserve? && GoodSlots(op.slots, t) && Accounts(m0, v0, t) && m0.reservations == v0.reservations
    requires m' == if Refuses(m0, op) then m0 else GrantedMem(m0, op.id, op.slots, op.amount, t + op.ttl, t)
    requires v' == if Refuses(m0, op) then v0 else GrantedValkey(v0, op.id, op.slots, op.amount, t + op.ttl, t)
    ensures Accounts(m', v', t)
  {
    if !Refuses(m0, op) { GrantAgrees(m0, v0, op.id, op.slots, op.amount, t + op.ttl, t); }
  }

  lemma ReserveAgrees(m: Mem, v: Valkey, op: Op, t: int)
    requires op.Reserve? && GoodSlots(op.slots, t)
    requires Accounts(Sweep(m, t), Expire(v, t), t) && Sweep(m, t).reservations == Expire(v, t).reservations
    ensures MemStep(m, op, t).1 == ValkeyStep(v, op, t).1
    ensures Accounts(MemStep(m, op, t).0, ValkeyStep(v, op, t).0, t)
  {
    var (m0, v0) := (Sweep(m, t), Expire(v, t));
    SlotsEnd(op.slots, t);
    SameFirstOver(m0, v0, op.slots, op.amount, t);
    ReserveAnswers(m, v, op, t);
    ReserveOnMem(m, op, t);
    ReserveOnValkey(m0, v, op, t);
    ReserveStates(m0, v0, MemStep(m, op, t).0, ValkeyStep(v, op, t).0, op, t);
  }

  // -- Settle -----------------------------------------------------------------

  /** Recreating a counter happens only for windows that are over. */
  lemma {:induction false} SameShift(m: Mem, v: Valkey, keys: seq<Key>, delta: real, t: int)
    requires SameCounters(m, v, t) && (forall k :: k in keys && End(k) > t ==> k in m.counters)
    ensures SameCounters(m.(counters := Shift(m.counters, keys, delta)),
        v.(counters := VShift(v.counters, keys, delta)), t)
    ensures Shift(m.counters, keys, delta).Keys == m.counters.Keys
    ensures forall k :: k in m.counters ==> Shift(m.counters, keys, delta)[k].until == m.counters[k].until
  {
    var m', v' := m.(counters := Shift(m.counters, keys, delta)), v.(counters := VShift(v.counters, keys, delta));
    if keys == [] {
      forall k | End(k) > t ensures SameCounter(m', v', k) { assert SameCounter(m, v, k); }
    } else {
      var n := |keys| - 1;
      assert keys[n] in keys;
      SameShift(m, v, keys[..n], delta, t);
      var mi := m.(counters := Shift(m.counters, keys[..n], delta));
      var vi := v.(counters := VShift(v.counters, keys[..n], delta));
      forall k | End(k) > t ensures SameCounter(m', v', k) { assert SameCounter(mi, vi, k); }
    }
  }

  lemma SettleAgrees(m: Mem, v: Valkey, op: Op, t: int)
    requires op.Settle?
    requires Accounts(Sweep(m, t), Expire(v, t), t) && Sweep(m, t).reservations == Expire(v, t).reservations
    ensures MemStep(m, op, t).1 == ValkeyStep(v, op, t).1
    ensures Accounts(MemStep(m, op, t).0, ValkeyStep(v, op, t).0, t)
  {
    var m0, v0 := Sweep(m, t), Expire(v, t);
    if op.id in m0.reservations {
      var r := m0.reservations[op.id];
      SameShift(m0, v0, r.keys, Delta(r.amount, op.actual), t);
      var m', v' := MemStep(m, op, t).0, ValkeyStep(v, op, t).0;
      forall k | End(k) > t ensures SameCounter(m', v', k) {
        assert SameCounter(m0.(counters := m'.counters), v0.(counters := v'.counters), k);
      }
    }
  }

  // -- Leases -----------------------------------------------------------------

  /** What a granted lease leaves in the two stores, seen at a later instant. */
  function MemSeen(live: Leases, id: string, t: int, ttl: int, later: int): Leases {
    LiveLeases(live[id := t + ttl], later)
  }

  function ValkeySeen(live: Leases, id: string, t: int, ttl: int, later: int): Leases {
    if t + ttl + GRACE > later then LiveLeases(live[id := t + ttl], later) else map[]
  }

  /**
   * Exactly when a granted lease leaves both stores with the same leases at every later instant: no older lease
   * runs more than the grace beyond the new one. Otherwise Valkey forgets the whole set early.
   */
  lemma LeaseExact(live: Leases, id: string, t: int, ttl: int)
    requires forall i :: i in live ==> live[i] > t
    requires ttl >= 0
    ensures (forall later :: later >= t ==> MemSeen(live, id, t, ttl, later) == ValkeySeen(live, id, t, ttl, later))
            <==> (forall i :: i in live && i != id ==> live[i] <= t + ttl + 5000)
  {
    var end := t + ttl + GRACE;
    if forall i :: i in live && i != id ==> live[i] <= end {
      forall later | later >= t ensures MemSeen(live, id, t, ttl, later) == ValkeySeen(live, id, t, ttl, later) {
        if end <= later {
          var all := live[id := t + ttl];
          assert forall i :: i in all ==> all[i] <= later;
          assert MemSeen(live, id, t, ttl, later) == map[];
        }
      }
    } else {
      var i :| i in live && i != id && live[i] > end;
      assert i in MemSeen(live, id, t, ttl, end) && i !in ValkeySeen(live, id, t, ttl, end);
    }
  }

  /** Every member of every set ends no later than its set does. */
  ghost predicate SetsOutlive(v: Valkey) {
    forall on, i :: on in v.leases && i in v.leases[on].members ==> v.leases[on].members[i] <= v.leases[on].expires
  }

  /** All leases on key `on` were asked with a ttl between low and low + GRACE, by instant t. */
  ghost predicate Within(v: Valkey, ttls: map<string, int>, t: int) {
    forall on, i :: on in v.leases && i in v.leases[on].members ==>
      on in ttls && v.leases[on].members[i] <= t + ttls[on] + GRACE
  }

  ghost predicate LeaseOk(op: Op, ttls: map<string, int>) {
    op.Lease? ==> op.on in ttls && ttls[op.on] <= op.ttl <= ttls[op.on] + GRACE
  }

  ghost predicate LeaseInv(m: Mem, v: Valkey, ttls: map<string, int>, t: int) {
    SameLeases(m, v, t) && SetsOutlive(v) && Within(v, ttls, t)
  }

  lemma LiveTwice(m: Leases, t: int, t': int)
    requires t <= t'
    ensures LiveLeases(LiveLeases(m, t), t') == LiveLeases(m, t')
  {
  }

  lemma LeasesLater(m: Mem, v: Valkey, ttls: map<string, int>, t: int, t': int)
    requires LeaseInv(m, v, ttls, t) && t <= t'
    ensures LeaseInv(m, Expire(v, t'), ttls, t')
  {
    var v' := Expire(v, t');
    forall on ensures SameOn(m, v', on, t') {
      var a, b := LeasesOf(m, on), MembersOf(v, on);
      assert SameOn(m, v, on, t);
      LiveTwice(a, t, t');
      LiveTwice(b, t, t');
      if on in v.leases && on !in v'.leases {
        assert forall i :: i in b ==> b[i] <= t';
        assert LiveLeases(b, t') == map[];
      }
    }
  }

  lemma LeaseRefused(m: Mem, v: Valkey, op: Op, ttls: map<string, int>, t: int)
    requires op.Lease? && LeaseInv(m, Expire(v, t), ttls, t) && !MemLease(m, op.on, op.id, op.max, op.ttl, t).1
    ensures MemStep(m, op, t).1 == ValkeyStep(v, op, t).1
    ensures LeaseInv(MemStep(m, op, t).0, ValkeyStep(v, op, t).0, ttls, t)
  {
    var (v0, m', v') := (Expire(v, t), MemStep(m, op, t).0, ValkeyStep(v, op, t).0);
    assert SameOn(m, v0, op.on, t);
    assert m' == (if op.on in m.leases then m.(leases := m.leases[op.on := LiveLeases(LeasesOf(m, op.on), t)]) else m);
    assert v' == DropDead(v0, op.on, t);
    DropDeadKeeps(v0, op.on, ttls, t);
    forall on ensures SameOn(m', v', on, t) {
      SameDropped(m, v0, op.on, on, t);
    }
  }

  lemma SameDropped(m: Mem, v: Valkey, on: string, other: string, t: int)
    requires SameLeases(m, v, t)
    ensures SameOn(if on in m.leases then m.(leases := m.leases[on := LiveLeases(LeasesOf(m, on), t)]) else m,
        DropDead(v, on, t), other, t)
  {
    assert SameOn(m, v, other, t);
    LiveTwice(LeasesOf(m, on), t, t);
    LiveTwice(MembersOf(v, on), t, t);
  }

  /** ZREMRANGEBYSCORE: the dead members of a set are removed. */
  function DropDead(v: Valkey, on: string, t: int): Valkey {
    if on in v.leases then v.(leases := v.leases[on := v.leases[on].(members := LiveLeases(v.leases[on].members, t))])
    else v
  }

  lemma DropDeadKeeps(v: Valkey, on: string, ttls: map<string, int>, t: int)
    requires SetsOutlive(v) && Within(v, ttls, t)
    ensures SetsOutlive(DropDead(v, on, t)) && Within(DropDead(v, on, t), ttls, t)
  {
  }

  lemma LeaseGranted(m: Mem, v: Valkey, op: Op, ttls: map<string, int>, t: int)
    requires op.Lease? && LeaseInv(m, Expire(v, t), ttls, t) && LeaseOk(op, ttls)
    requires MemLease(m, op.on, op.id, op.max, op.ttl, t).1
    ensures MemStep(m, op, t).1 == ValkeyStep(v, op, t).1
    ensures LeaseInv(MemStep(m, op, t).0, ValkeyStep(v, op, t).0, ttls, t)
  {
    var (v0, m', v') := (Expire(v, t), MemStep(m, op, t).0, ValkeyStep(v, op, t).0);
    assert SameOn(m, v0, op.on, t);
    var live := LiveLeases(MembersOf(v0, op.on), t);
    assert m' == m.(leases := m.leases[op.on := live[op.id := t + op.ttl]]);
    assert v'.leases == v0.leases[op.on := VLeases(live[op.id := t + op.ttl], t + op.ttl + GRACE)];
    GrantKeeps(v0, v', op, live, ttls, t);
    forall on ensures SameOn(m', v', on, t) {
      assert SameOn(m, v0, on, t);
      assert on != op.on ==> LeasesOf(m', on) == LeasesOf(m, on) && MembersOf(v', on) == MembersOf(v0, on);
    }
  }

  lemma GrantKeeps(v0: Valkey, v': Valkey, op: Op, live: Leases, ttls: map<string, int>, t: int)
    requires op.Lease? && LeaseOk(op, ttls) && SetsOutlive(v0) && Within(v0, ttls, t)
    requires live == LiveLeases(MembersOf(v0, op.on), t)
    requires v'.leases == v0.leases[op.on := VLeases(live[op.id := t + op.ttl], t + op.ttl + GRACE)]
    ensures SetsOutlive(v') && Within(v', ttls, t)
  {
    forall on, i | on in v'.leases && i in v'.leases[on].members
      ensures v'.leases[on].members[i] <= v'.leases[on].expires
      ensures on in ttls && v'.leases[on].members[i] <= t + ttls[on] + GRACE
    {
      assert on in v0.leases && i in v0.leases[on].members ==>
        on in ttls && v0.leases[on].members[i] <= t + ttls[on] + GRACE;
    }
  }

  lemma UnleaseAgrees(m: Mem, v: Valkey, op: Op, ttls: map<string, int>, t: int)
    requires op.Unlease? && LeaseInv(m, Expire(v, t), ttls, t)
    ensures LeaseInv(MemStep(m, op, t).0, ValkeyStep(v, op, t).0, ttls, t)
  {
    var v0, m', v' := Expire(v, t), MemStep(m, op, t).0, ValkeyStep(v, op, t).0;
    forall on ensures SameOn(m', v', on, t) {
      assert SameOn(m, v0, on, t);
      LiveWithout(LeasesOf(m, on), op.id, t);
      LiveWithout(MembersOf(v0, on), op.id, t);
    }
  }

  lemma LiveWithout(m: Leases, id: string, t: int)
    ensures LiveLeases(m - {id}, t) == LiveLeases(m, t) - {id}
  {
  }

  // -- Every run --------------------------------------------------------------

  datatype Timed = Timed(op: Op, at: int)

  const NO_MEM: Mem := Mem(map[], map[], map[])
  const NO_VALKEY: Valkey := Valkey(map[], map[], map[])

  function MemRun(ops: seq<Timed>): (r: (Mem, seq<Reply>))
    ensures |r.1| == |ops|
  {
    if ops == [] then (NO_MEM, [])
    else
      var n := |ops| - 1;
      var (m, replies) := MemRun(ops[..n]);
      var (m', r) := MemStep(m, ops[n].op, ops[n].at);
      (m', replies + [r])
  }

  function ValkeyRun(ops: seq<Timed>): (r: (Valkey, seq<Reply>))
    ensures |r.1| == |ops|
  {
    if ops == [] then (NO_VALKEY, [])
    else
      var n := |ops| - 1;
      var (v, replies) := ValkeyRun(ops[..n]);
      var (v', r) := ValkeyStep(v, ops[n].op, ops[n].at);
      (v', replies + [r])
  }

  ghost predicate Proper(ops: seq<Timed>) {
    && (forall i, j :: 0 <= i < j < |ops| ==> ops[i].at <= ops[j].at)
    && (forall i :: 0 <= i < |ops| ==> Allowed(ops[i].op, ops[i].at))
  }

  /** The ttls asked on one lease key lie within GRACE of each other. */
  ghost predicate SteadyTtls(ops: seq<Timed>, ttls: map<string, int>) {
    forall i :: 0 <= i < |ops| ==> LeaseOk(ops[i].op, ttls)
  }

  lemma StepAgrees(m: Mem, v: Valkey, op: Op, ttls: map<string, int>, t: int, t': int)
    requires Accounts(m, v, t) && LeaseInv(m, v, ttls, t) && t <= t' && Allowed(op, t') && LeaseOk(op, ttls)
    ensures MemStep(m, op, t').1 == ValkeyStep(v, op, t').1
    ensures Accounts(MemStep(m, op, t').0, ValkeyStep(v, op, t').0, t')
    ensures LeaseInv(MemStep(m, op, t').0, ValkeyStep(v, op, t').0, ttls, t')
  {
    AccountsLater(m, v, t, t');
    LeasesLater(m, v, ttls, t, t');
    if op.Lease? || op.Unlease? {
      if op.Unlease? { UnleaseAgrees(m, v, op, ttls, t'); }
      else if MemLease(m, op.on, op.id, op.max, op.ttl, t').1 { LeaseGranted(m, v, op, ttls, t'); }
      else { LeaseRefused(m, v, op, ttls, t'); }
      LeasesLeaveAccounts(m, v, op, t');
    } else {
      AccountsSwept(m, v, t');
      AccountsLeaveLeases(m, v, op, ttls, t');
      match op
      case Reserve(_, _, _, _) => ReserveAgrees(m, v, op, t');
      case Settle(_, _) => SettleAgrees(m, v, op, t');
      case Usage(k) => assert SameCounter(Sweep(m, t'), Expire(v, t'), k);
      case _ =>
    }
  }

  lemma LeasesLeaveAccounts(m: Mem, v: Valkey, op: Op, t: int)
    requires (op.Lease? || op.Unlease?) && Accounts(m, Expire(v, t), t)
    ensures Accounts(MemStep(m, op, t).0, ValkeyStep(v, op, t).0, t)
  {
    var m', v' := MemStep(m, op, t).0, ValkeyStep(v, op, t).0;
    assert m'.counters == m.counters && m'.reservations == m.reservations;
    assert v'.counters == Expire(v, t).counters && v'.reservations == Expire(v, t).reservations;
    forall k | End(k) > t ensures SameCounter(m', v', k) { assert SameCounter(m, Expire(v, t), k); }
  }

  lemma AccountsLeaveLeases(m: Mem, v: Valkey, op: Op, ttls: map<string, int>, t: int)
    requires !op.Lease? && !op.Unlease? && LeaseInv(m, Expire(v, t), ttls, t)
    ensures LeaseInv(MemStep(m, op, t).0, ValkeyStep(v, op, t).0, ttls, t)
  {
    var m', v' := MemStep(m, op, t).0, ValkeyStep(v, op, t).0;
    assert m'.leases == m.leases && v'.leases == Expire(v, t).leases;
    forall on ensures SameOn(m', v', on, t) {
      assert SameOn(m, Expire(v, t), on, t);
    }
  }

  lemma {:induction false} RunsRelated(ops: seq<Timed>, ttls: map<string, int>, start: int)
    requires Proper(ops) && SteadyTtls(ops, ttls) && (ops != [] ==> start <= ops[0].at)
    ensures var t := if ops == [] then start else ops[|ops| - 1].at;
            Accounts(MemRun(ops).0, ValkeyRun(ops).0, t) && LeaseInv(MemRun(ops).0, ValkeyRun(ops).0, ttls, t)
    ensures MemRun(ops).1 == ValkeyRun(ops).1
  {
    if ops == [] {
      forall k | End(k) > start ensures SameCounter(NO_MEM, NO_VALKEY, k) {}
      assert LiveReservations(NO_MEM.reservations, start) == LiveReservations(NO_VALKEY.reservations, start);
    } else {
      var n := |ops| - 1;
      RunsRelated(ops[..n], ttls, start);
      assert ops[..n] != [] ==> ops[..n][|ops[..n]| - 1].at <= ops[n].at;
      StepAgrees(MemRun(ops[..n]).0, ValkeyRun(ops[..n]).0, ops[n].op, ttls,
                 if n == 0 then start else ops[n - 1].at, ops[n].at);
    }
  }

  /** The scripts refine the Maps: on every run with a monotone clock and steady ttls, every answer is the same. */
  lemma SameAnswers(ops: seq<Timed>, ttls: map<string, int>)
    requires Proper(ops) && SteadyTtls(ops, ttls)
    ensures MemRun(ops).1 == ValkeyRun(ops).1
  {
    RunsRelated(ops, ttls, if ops == [] then 0 else ops[0].at);
  }

  /** The run that tells the stores apart once two ttls on one key are further apart than the grace. */
  function GapRun(on: string, long: int, short: int): seq<Timed> {
    [Timed(Lease(on, "first", 2, long), 0),
     Timed(Lease(on, "second", 2, short), 0),
     Timed(Lease(on, "third", 1, short), short + GRACE)]
  }

  /**
   * The last lease of the gap run: refused by the Maps, which remember the first lease, and granted by Valkey, which
   * forgot it.
   */
  lemma GapDiverges(on: string, long: int, short: int)
    requires 0 < short && short + GRACE < long
    ensures Proper(GapRun(on, long, short))
    ensures MemRun(GapRun(on, long, short)).1[2] == Leased(false)
    ensures ValkeyRun(GapRun(on, long, short)).1[2] == Leased(true)
  {
    var ops := GapRun(on, long, short);
    GapIsProper(on, long, short);
    assert ops == [ops[0], ops[1], ops[2]];
    RunThree(ops[0], ops[1], ops[2]);
    GapInProcess(on, long, short);
    GapOnValkey(on, long, short);
  }

  lemma GapIsProper(on: string, long: int, short: int)
    requires 0 < short && short + GRACE < long
    ensures Proper(GapRun(on, long, short))
  {
  }

  lemma GapInProcess(on: string, long: int, short: int)
    requires 0 < short && short + GRACE < long
    ensures
      var ops := GapRun(on, long, short);
      MemStep(MemStep(MemStep(NO_MEM, ops[0].op, 0).0, ops[1].op, 0).0, ops[2].op, short + GRACE).1 == Leased(false)
  {
    MemGap(on, long, short);
  }

  lemma GapOnValkey(on: string, long: int, short: int)
    requires 0 < short && short + GRACE < long
    ensures
      var ops := GapRun(on, long, short);
      var v := ValkeyStep(ValkeyStep(NO_VALKEY, ops[0].op, 0).0, ops[1].op, 0).0;
      ValkeyStep(v, ops[2].op, short + GRACE).1 == Leased(true)
  {
    ValkeyGap(on, long, short);
  }

  lemma RunThree(a: Timed, b: Timed, c: Timed)
    ensures |MemRun([a, b, c]).1| == 3 && |ValkeyRun([a, b, c]).1| == 3
    ensures MemRun([a, b, c]).1[2] == MemStep(MemStep(MemStep(NO_MEM, a.op, a.at).0, b.op, b.at).0, c.op, c.at).1
    ensures
      var v := ValkeyStep(ValkeyStep(NO_VALKEY, a.op, a.at).0, b.op, b.at).0;
      ValkeyRun([a, b, c]).1[2] == ValkeyStep(v, c.op, c.at).1
  {
    RunOne(a);
    RunTwo(a, b);
    RunAnswers([a, b]);
    LastAnswer([a, b], c);
    assert [a, b] + [c] == [a, b, c];
  }

  lemma LastAnswer(front: seq<Timed>, c: Timed)
    requires |MemRun(front).1| == |front| && |ValkeyRun(front).1| == |front|
    ensures |MemRun(front + [c]).1| == |front| + 1 && |ValkeyRun(front + [c]).1| == |front| + 1
    ensures MemRun(front + [c]).1[|front|] == MemStep(MemRun(front).0, c.op, c.at).1
    ensures ValkeyRun(front + [c]).1[|front|] == ValkeyStep(ValkeyRun(front).0, c.op, c.at).1
  {
    assert (front + [c])[..|front|] == front;
  }

  lemma {:induction false} RunAnswers(ops: seq<Timed>)
    ensures |MemRun(ops).1| == |ops| && |ValkeyRun(ops).1| == |ops|
    decreases |ops|
  {
    if ops != [] { RunAnswers(ops[..|ops| - 1]); }
  }

  lemma RunOne(a: Timed)
    ensures MemRun([a]).0 == MemStep(NO_MEM, a.op, a.at).0 && ValkeyRun([a]).0 == ValkeyStep(NO_VALKEY, a.op, a.at).0
  {
    assert [a][..0] == [];
  }

  lemma RunTwo(a: Timed, b: Timed)
    ensures MemRun([a, b]).0 == MemStep(MemRun([a]).0, b.op, b.at).0
    ensures ValkeyRun([a, b]).0 == ValkeyStep(ValkeyRun([a]).0, b.op, b.at).0
  {
    assert [a, b][..1] == [a];
  }

  lemma MemGap(on: string, long: int, short: int)
    requires 0 < short && short + GRACE < long
    ensures var m1 := MemLease(NO_MEM, on, "first", 2, long, 0).0;
            var m2 := MemLease(m1, on, "second", 2, short, 0).0;
            !MemLease(m2, on, "third", 1, short, short + GRACE).1
  {
    var m1 := MemLease(NO_MEM, on, "first", 2, long, 0).0;
    var m2 := MemLease(m1, on, "second", 2, short, 0).0;
    assert LiveLeases(map[], 0) == map[];
    assert LeasesOf(m1, on) == map["first" := long] && LiveLeases(LeasesOf(m1, on), 0) == map["first" := long];
    assert LeasesOf(m2, on) == map["first" := long, "second" := short];
    assert LiveLeases(LeasesOf(m2, on), short + GRACE) == map["first" := long];
  }

  lemma ValkeyGap(on: string, long: int, short: int)
    requires 0 < short && short + GRACE < long
    ensures var v1 := VLease(NO_VALKEY, on, "first", 2, long, 0).0;
            var v2 := VLease(v1, on, "second", 2, short, 0).0;
            VLease(v2, on, "third", 1, short, short + GRACE).1
  {
    var v1 := VLease(NO_VALKEY, on, "first", 2, long, 0).0;
    var v2 := VLease(v1, on, "second", 2, short, 0).0;
    assert LiveLeases(map[], 0) == map[] && LiveLeases(map[], short + GRACE) == map[];
    assert MembersOf(v1, on) == map["first" := long];
    assert LiveLeases(MembersOf(Expire(v1, 0), on), 0) == map["first" := long];
    assert v2.leases[on].expires == short + GRACE;
    assert MembersOf(Expire(v2, short + GRACE), on) == map[];
  }

  ghost predicate UsesTtls(ops: seq<Timed>, low: int, high: int) {
    forall i :: 0 <= i < |ops| && ops[i].op.Lease? ==> low <= ops[i].op.ttl <= high
  }

  /**
   * For callers that ask ttls from low to high: the stores agree on every such run exactly when high - low is within
   * the grace.
   */
  lemma StoresAgreeIff(low: int, high: int)
    requires 0 < low <= high
    ensures (forall ops: seq<Timed> :: Proper(ops) && UsesTtls(ops, low, high) ==> MemRun(ops).1 == ValkeyRun(ops).1)
            <==> high <= low + 5000
  {
    if high <= low + GRACE {
      forall ops: seq<Timed> | Proper(ops) && UsesTtls(ops, low, high) ensures MemRun(ops).1 == ValkeyRun(ops).1 {
        var ttls := map on | on in LeaseKeys(ops) :: low;
        forall i | 0 <= i < |ops| ensures LeaseOk(ops[i].op, ttls) {
          if ops[i].op.Lease? { LeaseKeysHas(ops, i); }
        }
        SameAnswers(ops, ttls);
      }
    } else {
      GapDiverges("key", high, low);
      assert UsesTtls(GapRun("key", high, low), low, high);
    }
  }

  function LeaseKeys(ops: seq<Timed>): set<string> {
    if ops == [] then {}
    else LeaseKeys(ops[1..]) + (if ops[0].op.Lease? then {ops[0].op.on} else {})
  }

  lemma {:induction false} LeaseKeysHas(ops: seq<Timed>, i: nat)
    requires i < |ops| && ops[i].op.Lease?
    ensures ops[i].op.on in LeaseKeys(ops)
  {
    if i > 0 { LeaseKeysHas(ops[1..], i - 1); }
  }
}
