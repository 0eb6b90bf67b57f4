/**
 * The shared counters of the rate limits (src/limits.js): one script per request on Valkey, with a key per window that
 * expires after it. The script is proved to decide as the in-process counters do.
 */
module SharedLimits {
  import opened Prelude
  import opened Limits

  /** A counter key names the actor, the window and the start of the window. */
  datatype Key = Key(actor: string, window: string, start: int)

  datatype Entry = Entry(count: nat, expires: int)

  type Store = map<Key, Entry>

  const GRACE := 5

  function KeyOf(actor: string, w: Window, t: int): Key { Key(actor, w.name, StartOf(t, w.len)) }

  /** GET, or 0 for a key that is not there or has expired. */
  function Get(m: Store, k: Key, t: int): nat { if k in m && t < m[k].expires then m[k].count else 0 }

  /** INCR, and EXPIRE on a key it made. */
  function Incr(m: Store, k: Key, t: int, ttl: int): Store {
    var n := Get(m, k, t) + 1;
    m[k := Entry(n, if n == 1 then t + ttl else m[k].expires)]
  }

  /** The first loop of the script: the 1-based index of the window with the longest wait, or 0, and that wait. */
  function Checked(m: Store, actor: string, ws: seq<Window>, t: int): (nat, int)
    decreases |ws|
  {
    if ws == [] then (0, -1)
    else
      var (worst, wait) := Checked(m, actor, ws[..|ws| - 1], t);
      var w := ws[|ws| - 1];
      if Get(m, KeyOf(actor, w, t), t) >= w.max && Wait(w, t) > wait then (|ws|, Wait(w, t)) else (worst, wait)
  }

  /** The second loop. */
  function Counted(m: Store, actor: string, ws: seq<Window>, t: int): Store
    decreases |ws|
  {
    if ws == [] then m
    else
      var w := ws[|ws| - 1];
      Incr(Counted(m, actor, ws[..|ws| - 1], t), KeyOf(actor, w, t), t, w.len + GRACE)
  }

  function ScriptHit(m: Store, actor: string, ws: seq<Window>, t: int): (Store, Decision) {
    var (worst, wait) := Checked(m, actor, ws, t);
    if worst > 0 then (m, Refused(worst - 1, wait)) else (Counted(m, actor, ws, t), Admitted)
  }

  class LimitStore {
    var entries: Store

    constructor ()
      ensures entries == map[]
    {
      entries := map[];
    }

    /** hit: the script, its two loops over the windows' keys. */
    method Hit(actor: string, ws: seq<Window>, t: int) returns (d: Decision)
      modifies this
      ensures (entries, d) == ScriptHit(old(entries), actor, ws, t)
    {
      var worst, wait := 0, -1;
      var i := 0;
      while i < |ws|
        invariant 0 <= i <= |ws| && entries == old(entries)
        invariant (worst as nat, wait) == Checked(entries, actor, ws[..i], t)
      {
        TakeSnoc(ws, i);
        if Get(entries, KeyOf(actor, ws[i], t), t) >= ws[i].max {
          var r := Wait(ws[i], t);
          if r > wait { worst, wait := i + 1, r; }
        }
        i := i + 1;
      }
      assert ws[..i] == ws;
      if worst > 0 { return Refused(worst - 1, wait); }
      i := 0;
      while i < |ws|
        invariant 0 <= i <= |ws| && entries == Counted(old(entries), actor, ws[..i], t)
      {
        TakeSnoc(ws, i);
        entries := Incr(entries, KeyOf(actor, ws[i], t), t, ws[i].len + GRACE);
        i := i + 1;
      }
      assert ws[..i] == ws;
      return Admitted;
    }
  }

  // -- The script decides as the in-process counters do -----------------------

  /** The entries of an actor lie in windows that have begun, and outlive them. */
  ghost predicate Lasting(m: Store, actor: string, ws: seq<Window>, t: int) {
    forall k, i :: k in m && 0 <= i < |ws| && k.actor == actor && k.window == ws[i].name ==>
      k.start <= t && m[k].expires >= k.start + ws[i].len && m[k].count > 0
  }

  /** In every window the script reads what the in-process slot holds. */
  ghost predicate SameCounts(m: Store, cell: Cell, actor: string, ws: seq<Window>, t: int) {
    forall i :: 0 <= i < |ws| ==> SameCount(m, cell, actor, ws[i], t)
  }

  ghost predicate SameCount(m: Store, cell: Cell, actor: string, w: Window, t: int) {
    Get(m, KeyOf(actor, w, t), t) == Rolled(cell, w, t).count
  }

  lemma {:induction false} SameDecision(m: Store, cell: Cell, actor: string, ws: seq<Window>, t: int)
    requires SameCounts(m, cell, actor, ws, t) && forall i :: 0 <= i < |ws| ==> ws[i].len > 0
    ensures
      var ((worst, wait), d) := (Checked(m, actor, ws, t), Worst(cell, ws, t));
      if d.Admitted? then worst == 0 && wait == -1 else worst == d.index + 1 && wait == d.retry && wait > 0
    decreases |ws|
  {
    if ws != [] {
      var w := ws[|ws| - 1];
      SameDecision(m, cell, actor, ws[..|ws| - 1], t);
      assert SameCount(m, cell, actor, w, t);
      StartBounds(t, w.len);
    }
  }

  /** Later in time they still agree: a window that has passed counts nothing on either side. */
  lemma Later(m: Store, cell: Cell, actor: string, ws: seq<Window>, t: int, later: int)
    requires Good(ws) && t <= later && Lasting(m, actor, ws, t) && SameCounts(m, cell, actor, ws, t)
    requires NotAhead(cell, ws, t)
    ensures Lasting(m, actor, ws, later) && SameCounts(m, cell, actor, ws, later)
  {
    forall i | 0 <= i < |ws| ensures SameCount(m, cell, actor, ws[i], later) {
      var w := ws[i];
      assert SameCount(m, cell, actor, w, t);
      StartBounds(t, w.len);
      StartBounds(later, w.len);
      StartsApart(t, later, w.len);
    }
  }

  lemma {:induction false} CountedAt(m: Store, actor: string, ws: seq<Window>, t: int, k: Key)
    requires Good(ws)
    ensures (forall i :: 0 <= i < |ws| ==> k != KeyOf(actor, ws[i], t)) ==>
      (k in Counted(m, actor, ws, t) <==> k in m) && (k in m ==> Counted(m, actor, ws, t)[k] == m[k])
    ensures
      var m' := Counted(m, actor, ws, t);
      forall i :: 0 <= i < |ws| && k == KeyOf(actor, ws[i], t) ==> IsIncr(m, m', k, t, ws[i].len + GRACE)
    decreases |ws|
  {
    if ws != [] {
      var front := ws[..|ws| - 1];
      CountedAt(m, actor, front, t, k);
      assert forall i :: 0 <= i < |front| ==> ws[i] == front[i];
    }
  }

  ghost predicate IsIncr(m: Store, next: Store, k: Key, t: int, ttl: int) {
    k in next && next[k] == Incr(m, k, t, ttl)[k]
  }

  /** One request of the actor, on both sides. */
  lemma HitSame(m: Store, cell: Cell, actor: string, ws: seq<Window>, t: int)
    requires Good(ws) && Lasting(m, actor, ws, t) && SameCounts(m, cell, actor, ws, t)
    ensures ScriptHit(m, actor, ws, t).1 == CellHit(cell, ws, t).1
    ensures Lasting(ScriptHit(m, actor, ws, t).0, actor, ws, t)
    ensures SameCounts(ScriptHit(m, actor, ws, t).0, CellHit(cell, ws, t).0, actor, ws, t)
  {
    SameDecision(m, cell, actor, ws, t);
    var next := ScriptHit(m, actor, ws, t).0;
    forall i | 0 <= i < |ws| ensures SameCount(next, CellHit(cell, ws, t).0, actor, ws[i], t) {
      assert SameCount(m, cell, actor, ws[i], t);
      HitAt(cell, ws, t, i);
      StartBounds(t, ws[i].len);
      CountedAt(m, actor, ws, t, KeyOf(actor, ws[i], t));
    }
    LastingStays(m, actor, ws, t);
  }

  lemma LastingStays(m: Store, actor: string, ws: seq<Window>, t: int)
    requires Good(ws) && Lasting(m, actor, ws, t)
    ensures Lasting(Counted(m, actor, ws, t), actor, ws, t)
  {
    var next := Counted(m, actor, ws, t);
    forall k, i | k in next && 0 <= i < |ws| && k.actor == actor && k.window == ws[i].name
      ensures k.start <= t && next[k].expires >= k.start + ws[i].len && next[k].count > 0
    {
      CountedAt(m, actor, ws, t, k);
      StartBounds(t, ws[i].len);
      if k == KeyOf(actor, ws[i], t) { assert IsIncr(m, next, k, t, ws[i].len + GRACE); }
    }
  }

  /** A request of another actor touches none of this one's keys. */
  lemma {:induction false} HitOther(m: Store, other: string, actor: string, theirs: seq<Window>, t: int, k: Key)
    requires other != actor && k.actor == actor
    ensures k in ScriptHit(m, other, theirs, t).0 <==> k in m
    ensures k in m ==> ScriptHit(m, other, theirs, t).0[k] == m[k]
  {
    OtherCounted(m, other, theirs, t, k);
  }

  lemma {:induction false} OtherCounted(m: Store, other: string, theirs: seq<Window>, t: int, k: Key)
    requires k.actor != other
    ensures k in Counted(m, other, theirs, t) <==> k in m
    ensures k in m ==> Counted(m, other, theirs, t)[k] == m[k]
    decreases |theirs|
  {
    if theirs != [] { OtherCounted(m, other, theirs[..|theirs| - 1], t, k); }
  }

  // -- Runs -------------------------------------------------------------------

  function StoreAfter(reqs: seq<Request>, c: Config): Store
    decreases |reqs|
  {
    if reqs == [] then map[]
    else
      var r := reqs[|reqs| - 1];
      ScriptHit(StoreAfter(reqs[..|reqs| - 1], c), r.key, c.windows(r.key), r.t).0
  }

  function StoreDecided(reqs: seq<Request>, c: Config): Decision
    requires reqs != []
  {
    var r := reqs[|reqs| - 1];
    ScriptHit(StoreAfter(reqs[..|reqs| - 1], c), r.key, c.windows(r.key), r.t).1
  }

  ghost predicate Agree(reqs: seq<Request>, actor: string, c: Config, t: int) {
    var (m, ws, cell) := (StoreAfter(reqs, c), c.windows(actor), CellAfter(c.windows(actor), TimesOf(reqs, actor)));
    Lasting(m, actor, ws, t) && SameCounts(m, cell, actor, ws, t) && NotAhead(cell, ws, t)
  }

  lemma {:induction false} StoreAgrees(reqs: seq<Request>, actor: string, c: Config, t: int)
    requires Good(c.windows(actor))
    requires (forall i, j :: 0 <= i < j < |reqs| ==> reqs[i].t <= reqs[j].t)
        && forall i :: 0 <= i < |reqs| ==> reqs[i].t <= t
    ensures Agree(reqs, actor, c, t)
    ensures reqs != [] && reqs[|reqs| - 1].key == actor ==>
      StoreDecided(reqs, c) == LastDecision(c.windows(actor), TimesOf(reqs, actor))
    decreases |reqs|
  {
    if reqs != [] {
      var (front, r, ws) := (reqs[..|reqs| - 1], reqs[|reqs| - 1], c.windows(actor));
      StoreAgrees(front, actor, c, r.t);
      var (m, cell) := (StoreAfter(front, c), CellAfter(ws, TimesOf(front, actor)));
      if r.key == actor {
        assert TimesOf(reqs, actor)[..|TimesOf(front, actor)|] == TimesOf(front, actor);
        HitSame(m, cell, actor, ws, r.t);
        HitNotAhead(cell, ws, r.t, r.t);
      } else {
        assert TimesOf(reqs, actor) == TimesOf(front, actor);
        forall k: Key | k.actor == actor
          ensures (k in StoreAfter(reqs, c) <==> k in m) && (k in m ==> StoreAfter(reqs, c)[k] == m[k])
        {
          HitOther(m, r.key, actor, c.windows(r.key), r.t, k);
        }
        var m' := StoreAfter(reqs, c);
        assert forall i :: 0 <= i < |ws| && SameCount(m, cell, actor, ws[i], r.t) ==>
          SameCount(m', cell, actor, ws[i], r.t);
      }
      Later(StoreAfter(reqs, c), CellAfter(ws, TimesOf(reqs, actor)), actor, ws, r.t, t);
    }
  }

  /**
   * The shared store and the in-process counters answer an actor alike, if fewer than maxActors others come between two
   * of its requests.
   */
  lemma StoresDecideAlike(reqs: seq<Request>, c: Config)
    requires reqs != [] && c.cap >= 1 && forall i, j :: 0 <= i < j < |reqs| ==> reqs[i].t <= reqs[j].t
    requires Good(c.windows(reqs[|reqs| - 1].key)) && Steady(reqs, reqs[|reqs| - 1].key, c.cap)
    ensures StoreDecided(reqs, c) == Decided(reqs, c)
  {
    var r := reqs[|reqs| - 1];
    StoreAgrees(reqs, r.key, c, r.t);
    SteadyIsKept(reqs, r.key, c);
    CountedAlone(reqs, r.key, c);
  }
}
