/**
 * What a policy's limits mean to somebody who only knows when they asked for how much: the requests of one minute,
 * hour, day or 30 days share that window's limit, on every run and for whoever asks in between.
 */
module GovernorWindows {
  import opened Prelude
  import opened Governor
  import opened GovernorLedger

  /** What a caller asks of the governor; `limits` is what the policy says of the unit and the tier. */
  datatype Request =
    | Charge(id: string, unit: string, scope: string, limits: map<Window, real>, amount: real, ttl: int)
    | Finish(id: string, actual: Option<real>)
    | Look(key: Key)

  datatype Asked = Asked(request: Request, at: int)

  function OpOf(a: Asked): Timed {
    match a.request
    case Charge(id, unit, scope, limits, amount, ttl) =>
      Timed(Reserve(id, WindowsFor(limits, unit, scope, a.at), amount, ttl), a.at)
    case Finish(id, actual) => Timed(Settle(id, actual), a.at)
    case Look(key) => Timed(Usage(key), a.at)
  }

  function Ops(asked: seq<Asked>): (ops: seq<Timed>)
    ensures |ops| == |asked| && forall i :: 0 <= i < |ops| ==> ops[i] == OpOf(asked[i])
  {
    seq(|asked|, i requires 0 <= i < |asked| => OpOf(asked[i]))
  }

  /** The clock never goes back, and no amount is negative. */
  ghost predicate Orderly(asked: seq<Asked>) {
    && (forall i, j :: 0 <= i < j < |asked| ==> asked[i].at <= asked[j].at)
    && (forall i :: 0 <= i < |asked| ==>
      match asked[i].request
      case Charge(_, _, _, _, amount, _) => amount >= 0.0
      case Finish(_, actual) => actual.Some? ==> actual.value >= 0.0
      case Look(_) => true)
  }

  lemma OrderlyIsProper(asked: seq<Asked>)
    requires Orderly(asked)
    ensures Proper(Ops(asked))
  {
    forall i | 0 <= i < |asked| ensures Allowed(Ops(asked)[i].op, Ops(asked)[i].at) {
      var a := asked[i];
      if a.request.Charge? { WindowsForGood(a.request.limits, a.request.unit, a.request.scope, a.at); }
    }
  }

  /** Whose charge an entry of the ledger is, and when it was granted. */
  datatype Origin = Origin(unit: string, scope: string, at: int)

  ghost predicate IsGranted(before: Books, a: Asked) {
    a.request.Charge?
    && var op := OpOf(a).op;
       MemReserve(before.mem, op.id, op.slots, op.amount, op.ttl, a.at).1 == Granted(false)
  }

  /** The origins of the granted charges, in the order in which they were granted. */
  ghost function Origins(asked: seq<Asked>): seq<Origin>
    decreases |asked|
  {
    if asked == [] then []
    else
      var (front, a) := (asked[..|asked| - 1], asked[|asked| - 1]);
      Origins(front)
      + (if IsGranted(Run(Ops(front)), a) then [Origin(a.request.unit, a.request.scope, a.at)] else [])
  }

  ghost predicate Falls(o: Origin, unit: string, scope: string, from: int, to: int) {
    o.unit == unit && o.scope == scope && from <= o.at < to
  }

  /** What was granted to somebody from one instant to another, as it stands: reserved, or really used. */
  ghost function Spent(log: seq<Entry>, origins: seq<Origin>, unit: string, scope: string, from: int, to: int): real
    requires |log| == |origins|
    decreases |log|
  {
    if log == [] then 0.0
    else
      var n := |log| - 1;
      Spent(log[..n], origins[..n], unit, scope, from, to)
      + (if Falls(origins[n], unit, scope, from, to) then Weight(log[n]) else 0.0)
  }

  /** By how much commits of those grants used more than they had reserved. */
  ghost function Overspent(log: seq<Entry>, origins: seq<Origin>, unit: string, scope: string, from: int, to: int): real
    requires |log| == |origins|
    decreases |log|
  {
    if log == [] then 0.0
    else
      var (n, e) := (|log| - 1, log[|log| - 1]);
      Overspent(log[..n], origins[..n], unit, scope, from, to)
      + (if Falls(origins[n], unit, scope, from, to) && e.status.Committed?
         then RealMax(0.0, e.status.actual - e.amount) else 0.0)
  }

  /** The window is limited for them, by no more than `limit`, whenever they ask in it. */
  ghost predicate Limits(asked: seq<Asked>, unit: string, scope: string, w: Window, from: int, to: int, limit: real) {
    forall i :: 0 <= i < |asked| && asked[i].request.Charge? && asked[i].request.unit == unit
                && asked[i].request.scope == scope && from <= asked[i].at < to ==>
      w in asked[i].request.limits && asked[i].request.limits[w] <= limit
  }

  /** An entry holds the counter of the window exactly when its charge was asked for in it. */
  ghost predicate HoldsItsWindow(e: Entry, o: Origin, k: Key, to: int) {
    k in e.keys <==> Falls(o, k.unit, k.scope, k.start, to)
  }

  /** The counters a charge raises. */
  lemma ChargeHolds(a: Asked, k: Key, to: int)
    requires a.request.Charge? && Aligned(k.window, k.start, to)
    requires a.request.unit == k.unit && a.request.scope == k.scope && k.start <= a.at < to ==>
               k.window in a.request.limits
    ensures k in KeysOf(OpOf(a).op.slots)
            <==> Falls(Origin(a.request.unit, a.request.scope, a.at), k.unit, k.scope, k.start, to)
  {
    var r := a.request;
    WindowsForGood(r.limits, r.unit, r.scope, a.at);
    KeysAre(r.limits, r.unit, r.scope, a.at, k, to);
  }

  lemma KeysAre(limits: map<Window, real>, unit: string, scope: string, at: int, k: Key, to: int)
    requires Aligned(k.window, k.start, to)
    requires unit == k.unit && scope == k.scope && k.start <= at < to ==> k.window in limits
    ensures k in KeysOf(WindowsFor(limits, unit, scope, at))
            <==> unit == k.unit && scope == k.scope && k.start <= at < to
  {
    var slots := WindowsFor(limits, unit, scope, at);
    WindowsForGood(limits, unit, scope, at);
    if k in KeysOf(slots) {
      var i :| 0 <= i < |slots| && slots[i].key == k;
      WindowsShared(limits, unit, scope, at, slots[i], k.start, to);
    }
    if unit == k.unit && scope == k.scope && k.start <= at < to {
      var s :| s in slots && s.key.window == k.window;
      WindowsShared(limits, unit, scope, at, s, k.start, to);
      var i :| 0 <= i < |slots| && slots[i] == s;
      assert KeysOf(slots)[i] == k;
    }
  }

  lemma {:induction false} EveryEntryHolds(asked: seq<Asked>, k: Key, to: int, limit: real)
    requires Orderly(asked) && Aligned(k.window, k.start, to)
    requires Limits(asked, k.unit, k.scope, k.window, k.start, to, limit)
    ensures |Origins(asked)| == |Run(Ops(asked)).log|
    ensures forall i :: 0 <= i < |Origins(asked)| ==>
      HoldsItsWindow(Run(Ops(asked)).log[i], Origins(asked)[i], k, to)
    decreases |asked|
  {
    if asked != [] {
      var (front, a) := (asked[..|asked| - 1], asked[|asked| - 1]);
      EveryEntryHolds(front, k, to, limit);
      RunOfMore(asked);
      if a.request.Charge? { ChargeHolds(a, k, to); }
      StepHolds(Run(Ops(front)), Origins(front), a, k, to);
    }
  }

  lemma RunOfMore(asked: seq<Asked>)
    requires asked != []
    ensures
      var (front, a) := (asked[..|asked| - 1], asked[|asked| - 1]);
      Run(Ops(asked)) == Step(Run(Ops(front)), OpOf(a).op, a.at)
  {
    assert Ops(asked)[..|asked| - 1] == Ops(asked[..|asked| - 1]);
  }

  lemma StepHolds(b: Books, origins: seq<Origin>, a: Asked, k: Key, to: int)
    requires |origins| == |b.log| && forall i :: 0 <= i < |origins| ==> HoldsItsWindow(b.log[i], origins[i], k, to)
    requires a.request.Charge? ==>
               (k in KeysOf(OpOf(a).op.slots)
                <==> Falls(Origin(a.request.unit, a.request.scope, a.at), k.unit, k.scope, k.start, to))
    ensures
      var log := Step(b, OpOf(a).op, a.at).log;
      var all := origins + if IsGranted(b, a) then [Origin(a.request.unit, a.request.scope, a.at)] else [];
      |all| == |log| && forall i :: 0 <= i < |all| ==> HoldsItsWindow(log[i], all[i], k, to)
  {
  }

  /** So what was spent in a window is what the ledger charges to its counter. */
  lemma {:induction false} SpentIsCharged(log: seq<Entry>, origins: seq<Origin>, k: Key, to: int)
    requires |log| == |origins| && forall i :: 0 <= i < |origins| ==> HoldsItsWindow(log[i], origins[i], k, to)
    ensures Spent(log, origins, k.unit, k.scope, k.start, to) == Charged(log, k)
    ensures Overspent(log, origins, k.unit, k.scope, k.start, to) == Overrun(log, k)
    decreases |log|
  {
    if log != [] {
      var n := |log| - 1;
      SpentIsCharged(log[..n], origins[..n], k, to);
      assert HoldsItsWindow(log[n], origins[n], k, to);
    }
  }

  /**
   * A limit is one limit: of all that somebody is granted from the start of a minute, hour, day or 30 days to its end,
   * however many requests ask for it and whatever others do, no more stands than the limit and what commits used above
   * what they had reserved.
   */
  lemma WindowIsLimited(asked: seq<Asked>, unit: string, scope: string, w: Window, from: int, to: int, limit: real)
    requires Orderly(asked) && Aligned(w, from, to) && limit >= 0.0
    requires Limits(asked, unit, scope, w, from, to, limit)
    ensures |Origins(asked)| == |Run(Ops(asked)).log|
    ensures
      var (log, origins) := (Run(Ops(asked)).log, Origins(asked));
      Spent(log, origins, unit, scope, from, to) <= limit + Overspent(log, origins, unit, scope, from, to)
  {
    var k := Key(unit, w, from, scope);
    OrderlyIsProper(asked);
    EveryEntryHolds(asked, k, to, limit);
    SpentIsCharged(Run(Ops(asked)).log, Origins(asked), k, to);
    var ops := Ops(asked);
    forall i, s | 0 <= i < |ops| && ops[i].op.Reserve? && s in ops[i].op.slots && s.key == k ensures s.limit <= limit {
      var a := asked[i];
      assert ops[i] == OpOf(a);
      WindowsForGood(a.request.limits, a.request.unit, a.request.scope, a.at);
      WindowsShared(a.request.limits, a.request.unit, a.request.scope, a.at, s, from, to);
    }
    ChargedWithinOverrun(ops, k, limit);
  }
}
