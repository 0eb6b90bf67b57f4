/**
 * Who holds a lease, read off the requests and their answers alone: a lease counts from the answer that granted it
 * until its time is over or it is given back, and nothing else counts.
 */
module GovernorLeases {
  import opened Prelude
  import opened Governor
  import opened GovernorRefinement

  /** The leases granted on a key and not given back, each with the instant at which it ends. */
  function Taken(ops: seq<Timed>, replies: seq<Reply>, on: string): map<string, int>
    requires |replies| == |ops|
    decreases |ops|
  {
    if ops == [] then map[]
    else
      var n := |ops| - 1;
      NowTaken(Taken(ops[..n], replies[..n], on), ops[n].op, replies[n], on, ops[n].at)
  }

  function NowTaken(before: map<string, int>, op: Op, reply: Reply, on: string, t: int): map<string, int> {
    if op.Lease? && op.on == on && reply == Leased(true) then before[op.id := t + op.ttl]
    else if op.Unlease? && op.on == on then before - {op.id}
    else before
  }

  /** Those that are not over. */
  function Running(taken: map<string, int>, t: int): set<string> { set id | id in taken && taken[id] > t }

  /** The same leases are not over, and end at the same instants. */
  ghost predicate SameEnds(a: map<string, int>, b: map<string, int>, t: int) {
    && (forall i :: i in a && a[i] > t ==> i in b && b[i] == a[i])
    && (forall i :: i in b && b[i] > t ==> i in a && a[i] == b[i])
  }

  lemma GrantedEnds(was: map<string, int>, taken: map<string, int>, id: string, end: int, t: int)
    requires SameEnds(was, taken, t)
    ensures SameEnds(LiveLeases(was, t)[id := end], taken[id := end], t)
    ensures SameEnds(LiveLeases(was, t), taken, t)
    ensures SameEnds(was - {id}, taken - {id}, t)
    ensures LiveLeases(was, t).Keys == Running(taken, t)
  {
  }

  lemma LeaseTakes(m: Mem, key: string, id: string, max: int, ttl: int, taken: map<string, int>, on: string, t: int)
    requires SameEnds(LeasesOf(m, on), taken, t)
    ensures
      var (m', ok) := MemLease(m, key, id, max, ttl, t);
      SameEnds(LeasesOf(m', on), if key == on && ok then taken[id := t + ttl] else taken, t)
  {
    GrantedEnds(LeasesOf(m, on), taken, id, t + ttl, t);
    var (m', ok) := MemLease(m, key, id, max, ttl, t);
    if key != on { assert LeasesOf(m', on) == LeasesOf(m, on); }
  }

  lemma UnleaseTakes(m: Mem, key: string, id: string, taken: map<string, int>, on: string, t: int)
    requires SameEnds(LeasesOf(m, on), taken, t)
    ensures SameEnds(LeasesOf(MemUnlease(m, key, id), on), if key == on then taken - {id} else taken, t)
  {
    GrantedEnds(LeasesOf(m, on), taken, id, t, t);
    if key == on {
      assert LeasesOf(MemUnlease(m, key, id), on) == LeasesOf(m, on) - {id};
    } else {
      assert LeasesOf(MemUnlease(m, key, id), on) == LeasesOf(m, on);
    }
  }

  lemma OthersLeave(m: Mem, op: Op, t: int)
    requires !op.Lease? && !op.Unlease?
    ensures MemStep(m, op, t).0.leases == m.leases
  {
  }

  lemma StepTakes(m: Mem, op: Op, taken: map<string, int>, on: string, t: int)
    requires SameEnds(LeasesOf(m, on), taken, t)
    ensures SameEnds(LeasesOf(MemStep(m, op, t).0, on), NowTaken(taken, op, MemStep(m, op, t).1, on, t), t)
  {
    if op.Lease? {
      LeaseTakes(m, op.on, op.id, op.max, op.ttl, taken, on, t);
    } else if op.Unlease? {
      UnleaseTakes(m, op.on, op.id, taken, on, t);
    } else {
      OthersLeave(m, op, t);
    }
  }

  function LastAt(ops: seq<Timed>): int { if ops == [] then 0 else ops[|ops| - 1].at }

  lemma {:induction false} RunTakes(ops: seq<Timed>, on: string)
    requires Proper(ops)
    ensures SameEnds(LeasesOf(MemRun(ops).0, on), Taken(ops, MemRun(ops).1, on), LastAt(ops))
    decreases |ops|
  {
    if ops != [] {
      var n := |ops| - 1;
      var (front, last) := (ops[..n], ops[n]);
      RunTakes(front, on);
      var (m, replies) := MemRun(front);
      var (m', a) := MemStep(m, last.op, last.at);
      assert MemRun(ops) == (m', replies + [a]) && (replies + [a])[..n] == replies;
      assert SameEnds(LeasesOf(m, on), Taken(front, replies, on), last.at);
      StepTakes(m, last.op, Taken(front, replies, on), on, last.at);
    }
  }

  /**
   * On every run a lease is granted exactly when fewer than `max` of those granted before on its key are neither over
   * nor given back; so a lease given back is free at once, and one that is over is free by itself.
   */
  lemma LeaseGrantedIff(ops: seq<Timed>, on: string, id: string, max: int, ttl: int, t: int)
    requires Proper(ops) && (ops != [] ==> LastAt(ops) <= t)
    ensures MemStep(MemRun(ops).0, Lease(on, id, max, ttl), t).1
            == Leased(|Running(Taken(ops, MemRun(ops).1, on), t)| < max)
  {
    RunTakes(ops, on);
    var (m, taken) := (MemRun(ops).0, Taken(ops, MemRun(ops).1, on));
    assert SameEnds(LeasesOf(m, on), taken, t);
    GrantedEnds(LeasesOf(m, on), taken, id, t + ttl, t);
  }

  /** And the script answers the same, where the ttls asked on a key lie within the grace of each other. */
  lemma ScriptGrantsIff(ops: seq<Timed>, ttls: map<string, int>)
    requires Proper(ops) && SteadyTtls(ops, ttls) && ops != [] && ops[|ops| - 1].op.Lease?
    ensures
      var (n, replies) := (|ops| - 1, ValkeyRun(ops).1);
      var op := ops[n].op;
      replies[n] == Leased(|Running(Taken(ops[..n], replies[..n], op.on), ops[n].at)| < op.max)
  {
    var n := |ops| - 1;
    var (front, op) := (ops[..n], ops[n].op);
    SameAnswers(ops, ttls);
    assert Proper(front);
    if front != [] { assert LastAt(front) == ops[n - 1].at; }
    LeaseGrantedIff(front, op.on, op.id, op.max, op.ttl, ops[n].at);
    assert MemRun(ops).1[..n] == MemRun(front).1;
  }
}
