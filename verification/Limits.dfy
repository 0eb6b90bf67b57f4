/**
 * Per-actor rate limits (src/limits.js): fixed windows counted in a bounded, least-recently-used map, or by one atomic
 * script on Valkey. Times are whole seconds, as the code floors them; a limit is a whole number of requests.
 */
module Limits {
  import opened Prelude

  datatype Window = Window(name: string, max: nat, len: int)

  datatype Slot = Slot(start: int, count: nat)

  /** One actor's counters by window name. */
  type Cell = map<string, Slot>

  /** A refusal names the window, by its index, with the longest wait. */
  datatype Decision = Admitted | Refused(index: nat, retry: int)

  ghost predicate Good(ws: seq<Window>) {
    && (forall i :: 0 <= i < |ws| ==> ws[i].len > 0)
    && (forall i, j :: 0 <= i < j < |ws| ==> ws[i].name != ws[j].name)
  }

  /** The start of the fixed window that holds t. */
  function StartOf(t: int, len: int): int { if len > 0 then (t / len) * len else t }

  lemma StartBounds(t: int, len: int)
    requires len > 0
    ensures StartOf(t, len) <= t < StartOf(t, len) + len
  {
  }

  /** Two windows of one length are the same or do not overlap. */
  lemma StartsApart(s: int, t: int, len: int)
    requires len > 0 && s <= t
    ensures StartOf(s, len) == StartOf(t, len) || StartOf(s, len) + len <= StartOf(t, len)
    ensures StartOf(s, len) <= t < StartOf(s, len) + len ==> StartOf(t, len) == StartOf(s, len)
    ensures t < StartOf(s, len) + 2 * len ==> StartOf(t, len) <= StartOf(s, len) + len
  {
    StartBounds(s, len);
    StartBounds(t, len);
    var p, q := s / len, t / len;
    if q > p {
      Gap(p, q, 1, len);
      if q > p + 1 { Gap(p, q, 2, len); }
    } else if q < p {
      Gap(q, p, 1, len);
    }
  }

  lemma Gap(p: int, q: int, k: int, len: int)
    requires q >= p + k && len > 0
    ensures q * len >= p * len + k * len
  {
    assert (q - p - k) * len >= 0;
    assert (q - p - k) * len == q * len - p * len - k * len;
  }

  // -- One actor --------------------------------------------------------------

  /** The slot of a window at t: the one there is, or a new one when its window has passed. */
  function Rolled(cell: Cell, w: Window, t: int): Slot {
    if w.name in cell && cell[w.name].start == StartOf(t, w.len) then cell[w.name] else Slot(StartOf(t, w.len), 0)
  }

  function Roll(cell: Cell, ws: seq<Window>, t: int): Cell
    decreases |ws|
  {
    if ws == [] then cell
    else
      var w := ws[|ws| - 1];
      Roll(cell, ws[..|ws| - 1], t)[w.name := Rolled(cell, w, t)]
  }

  predicate Full(cell: Cell, w: Window, t: int) { Rolled(cell, w, t).count >= w.max }

  function Wait(w: Window, t: int): int { StartOf(t, w.len) + w.len - t }

  /** The full window with the longest wait, the first of equals. */
  function Worst(cell: Cell, ws: seq<Window>, t: int): Decision
    decreases |ws|
  {
    if ws == [] then Admitted
    else
      var (before, w) := (Worst(cell, ws[..|ws| - 1], t), ws[|ws| - 1]);
      if Full(cell, w, t) && (before.Admitted? || Wait(w, t) > before.retry) then Refused(|ws| - 1, Wait(w, t))
      else before
  }

  function CountAll(cell: Cell, ws: seq<Window>): Cell
    decreases |ws|
  {
    if ws == [] then cell
    else
      var (before, w) := (CountAll(cell, ws[..|ws| - 1]), ws[|ws| - 1]);
      if w.name in before then before[w.name := Slot(before[w.name].start, before[w.name].count + 1)] else before
  }

  /** One request of one actor: check every window, then count every window. */
  function CellHit(cell: Cell, ws: seq<Window>, t: int): (r: (Cell, Decision)) {
    var c := Roll(cell, ws, t);
    var d := Worst(cell, ws, t);
    (if d.Admitted? then CountAll(c, ws) else c, d)
  }

  lemma {:induction false} RollAt(cell: Cell, ws: seq<Window>, t: int, i: nat)
    requires Good(ws) && i < |ws|
    ensures ws[i].name in Roll(cell, ws, t) && Roll(cell, ws, t)[ws[i].name] == Rolled(cell, ws[i], t)
    decreases |ws|
  {
    if i < |ws| - 1 { RollAt(cell, ws[..|ws| - 1], t, i); }
  }

  lemma {:induction false} CountAt(cell: Cell, ws: seq<Window>, i: nat)
    requires Good(ws) && i < |ws| && ws[i].name in cell
    ensures ws[i].name in CountAll(cell, ws)
    ensures CountAll(cell, ws)[ws[i].name] == Slot(cell[ws[i].name].start, cell[ws[i].name].count + 1)
    decreases |ws|
  {
    if i < |ws| - 1 {
      CountAt(cell, ws[..|ws| - 1], i);
    } else {
      CountSkips(cell, ws[..|ws| - 1], ws[i].name);
    }
  }

  lemma {:induction false} CountSkips(cell: Cell, ws: seq<Window>, name: string)
    requires forall i :: 0 <= i < |ws| ==> ws[i].name != name
    ensures name in CountAll(cell, ws) <==> name in cell
    ensures name in cell ==> CountAll(cell, ws)[name] == cell[name]
    decreases |ws|
  {
    if ws != [] { CountSkips(cell, ws[..|ws| - 1], name); }
  }

  /** What one request leaves in a window: the rolled slot, one more when it was admitted. */
  lemma HitAt(cell: Cell, ws: seq<Window>, t: int, i: nat)
    requires Good(ws) && i < |ws|
    ensures
      var (next, d) := CellHit(cell, ws, t);
      var slot := Rolled(cell, ws[i], t);
      ws[i].name in next && next[ws[i].name] == (if d.Admitted? then Slot(slot.start, slot.count + 1) else slot)
  {
    RollAt(cell, ws, t, i);
    if Worst(cell, ws, t).Admitted? { CountAt(Roll(cell, ws, t), ws, i); }
  }

  /** A request is admitted exactly when no window is full; a refusal names a full one, and no full one waits longer. */
  lemma {:induction false} WorstIs(cell: Cell, ws: seq<Window>, t: int)
    ensures Worst(cell, ws, t).Admitted? <==> forall i :: 0 <= i < |ws| ==> !Full(cell, ws[i], t)
    ensures
      var d := Worst(cell, ws, t);
      d.Refused? ==>
        && d.index < |ws| && Full(cell, ws[d.index], t) && d.retry == Wait(ws[d.index], t)
        && (forall i :: 0 <= i < |ws| && Full(cell, ws[i], t) ==> Wait(ws[i], t) <= d.retry)
        && (forall i :: 0 <= i < d.index && Full(cell, ws[i], t) ==> Wait(ws[i], t) < d.retry)
    decreases |ws|
  {
    if ws != [] {
      var front := ws[..|ws| - 1];
      WorstIs(cell, front, t);
      assert forall i :: 0 <= i < |front| ==> ws[i] == front[i];
      if Worst(cell, ws, t).Admitted? {
        assert Worst(cell, front, t).Admitted?;
      }
    }
  }

  ghost predicate SameAt(a: Cell, b: Cell, w: Window, t: int) { Rolled(a, w, t) == Rolled(b, w, t) }

  lemma {:induction false} SameWorst(a: Cell, b: Cell, ws: seq<Window>, t: int)
    requires forall i :: 0 <= i < |ws| ==> SameAt(a, b, ws[i], t)
    ensures Worst(a, ws, t) == Worst(b, ws, t)
    decreases |ws|
  {
    if ws != [] {
      SameWorst(a, b, ws[..|ws| - 1], t);
      assert SameAt(a, b, ws[|ws| - 1], t);
    }
  }

  /** No window of the cell lies in the future. */
  ghost predicate NotAhead(cell: Cell, ws: seq<Window>, t: int) {
    forall i :: 0 <= i < |ws| && ws[i].name in cell ==> cell[ws[i].name].start <= t
  }

  lemma HitNotAhead(cell: Cell, ws: seq<Window>, t: int, later: int)
    requires Good(ws) && t <= later
    ensures NotAhead(CellHit(cell, ws, t).0, ws, later)
  {
    forall i | 0 <= i < |ws|
      ensures ws[i].name in CellHit(cell, ws, t).0 && CellHit(cell, ws, t).0[ws[i].name].start <= later
    {
      HitAt(cell, ws, t, i);
      StartBounds(t, ws[i].len);
    }
  }

  /** A refused request counts nothing: every later request finds the windows as if it had not been made. */
  lemma RefusedCountsNothing(cell: Cell, ws: seq<Window>, t: int, later: int)
    requires Good(ws) && t <= later && NotAhead(cell, ws, t) && CellHit(cell, ws, t).1.Refused?
    ensures forall i :: 0 <= i < |ws| ==> SameAt(CellHit(cell, ws, t).0, cell, ws[i], later)
    ensures CellHit(CellHit(cell, ws, t).0, ws, later).1 == CellHit(cell, ws, later).1
  {
    var next := CellHit(cell, ws, t).0;
    forall i | 0 <= i < |ws| ensures SameAt(next, cell, ws[i], later) {
      HitAt(cell, ws, t, i);
      StartsApart(t, later, ws[i].len);
      StartBounds(t, ws[i].len);
    }
    SameWorst(next, cell, ws, later);
  }

  /**
   * Retry-After is exact: with all limits positive and no other request in between, a refused actor is refused at every
   * second before the wait is over, and admitted when it is.
   */
  lemma RetryAfterIsExact(cell: Cell, ws: seq<Window>, t: int, s: int)
    requires Good(ws) && NotAhead(cell, ws, t) && forall i :: 0 <= i < |ws| ==> ws[i].max > 0
    requires CellHit(cell, ws, t).1.Refused? && t <= s <= t + CellHit(cell, ws, t).1.retry
    ensures CellHit(cell, ws, t).1.retry >= 1
    ensures CellHit(CellHit(cell, ws, t).0, ws, s).1.Admitted? <==> s == t + CellHit(cell, ws, t).1.retry
  {
    var d := CellHit(cell, ws, t).1;
    WorstIs(cell, ws, t);
    RefusedCountsNothing(cell, ws, t, s);
    WorstIs(cell, ws, s);
    StartBounds(t, ws[d.index].len);
    StartsApart(t, s, ws[d.index].len);
    if s == t + d.retry {
      forall i | 0 <= i < |ws| ensures !Full(cell, ws[i], s) {
        StartBounds(t, ws[i].len);
        StartBounds(s, ws[i].len);
        StartsApart(t, s, ws[i].len);
      }
    } else {
      assert Full(cell, ws[d.index], s);
    }
  }

  // -- How many requests an actor can make ------------------------------------

  function CellAfter(ws: seq<Window>, times: seq<int>): Cell
    decreases |times|
  {
    if times == [] then map[] else CellHit(CellAfter(ws, times[..|times| - 1]), ws, times[|times| - 1]).0
  }

  /** The decision on the last of the requests. */
  function LastDecision(ws: seq<Window>, times: seq<int>): Decision
    requires times != []
  {
    CellHit(CellAfter(ws, times[..|times| - 1]), ws, times[|times| - 1]).1
  }

  /** How many requests were admitted at a time in [from, end). */
  function AdmittedIn(ws: seq<Window>, times: seq<int>, start: int, end: int): nat
    decreases |times|
  {
    if times == [] then 0
    else
      var t := times[|times| - 1];
      AdmittedIn(ws, times[..|times| - 1], start, end) + (if start <= t < end
          && LastDecision(ws, times).Admitted? then 1 else 0)
  }

  ghost predicate InOrder(times: seq<int>) { forall i, j :: 0 <= i < j < |times| ==> times[i] <= times[j] }

  ghost predicate SlotIs(ws: seq<Window>, times: seq<int>, i: nat)
    requires i < |ws| && times != []
  {
    var (cell, t) := (CellAfter(ws, times), times[|times| - 1]);
    ws[i].name in cell && cell[ws[i].name] == Slot(StartOf(t, ws[i].len), SlotAdmits(ws, times, i, t))
  }

  /** The slot of a window counts exactly what was admitted in it, and no window ever admits more than its maximum. */
  lemma {:induction false} SlotCounts(ws: seq<Window>, times: seq<int>, i: nat, s: int)
    requires Good(ws) && i < |ws| && InOrder(times)
    ensures times != [] ==> SlotIs(ws, times, i)
    ensures SlotAdmits(ws, times, i, s) <= ws[i].max
    decreases |times|
  {
    if times != [] {
      var (front, t) := (times[..|times| - 1], times[|times| - 1]);
      SlotCounts(ws, front, i, s);
      SlotCounts(ws, front, i, t);
      FoundAt(ws, times, i);
      HitAt(CellAfter(ws, front), ws, t, i);
      WorstIs(CellAfter(ws, front), ws, t);
      StartsOf(s, t, ws[i].len);
      StartsOf(t, t, ws[i].len);
    }
  }

  /** What a request finds in a window: as many as were admitted in it before. */
  lemma FoundAt(ws: seq<Window>, times: seq<int>, i: nat)
    requires Good(ws) && i < |ws| && InOrder(times) && times != []
    requires |times| > 1 ==> SlotIs(ws, times[..|times| - 1], i)
    ensures
      var (front, t) := (times[..|times| - 1], times[|times| - 1]);
      Rolled(CellAfter(ws, front), ws[i], t) == Slot(StartOf(t, ws[i].len), SlotAdmits(ws, front, i, t))
  {
    var (front, t) := (times[..|times| - 1], times[|times| - 1]);
    if front != [] { FoundLater(ws, front, t, i); }
  }

  lemma FoundLater(ws: seq<Window>, front: seq<int>, t: int, i: nat)
    requires Good(ws) && i < |ws| && InOrder(front) && front != [] && front[|front| - 1] <= t && SlotIs(ws, front, i)
    ensures Rolled(CellAfter(ws, front), ws[i], t) == Slot(StartOf(t, ws[i].len), SlotAdmits(ws, front, i, t))
  {
    var (u, len) := (front[|front| - 1], ws[i].len);
    StartsApart(u, t, len);
    StartBounds(u, len);
    if StartOf(u, len) == StartOf(t, len) {
      assert SlotAdmits(ws, front, i, u) == SlotAdmits(ws, front, i, t);
    } else {
      FoundNew(ws, front, t, i);
    }
  }

  /** A window that has begun since the last request finds nothing admitted in it. */
  lemma FoundNew(ws: seq<Window>, front: seq<int>, t: int, i: nat)
    requires Good(ws) && i < |ws| && InOrder(front) && front != [] && front[|front| - 1] < StartOf(t, ws[i].len)
    requires SlotIs(ws, front, i)
    requires StartOf(front[|front| - 1], ws[i].len) != StartOf(t, ws[i].len)
    ensures Rolled(CellAfter(ws, front), ws[i], t) == Slot(StartOf(t, ws[i].len), SlotAdmits(ws, front, i, t))
  {
    NoneYet(ws, front, StartOf(t, ws[i].len), StartOf(t, ws[i].len) + ws[i].len);
  }

  /** What was admitted in the fixed window that holds s. */
  function SlotAdmits(ws: seq<Window>, times: seq<int>, i: nat, s: int): nat
    requires i < |ws|
  {
    AdmittedIn(ws, times, StartOf(s, ws[i].len), StartOf(s, ws[i].len) + ws[i].len)
  }

  lemma StartsOf(s: int, t: int, len: int)
    requires len > 0
    ensures StartOf(s, len) <= t < StartOf(s, len) + len <==> StartOf(s, len) == StartOf(t, len)
  {
    StartBounds(s, len);
    StartBounds(t, len);
    if s <= t { StartsApart(s, t, len); } else { StartsApart(t, s, len); }
  }

  lemma {:induction false} NoneYet(ws: seq<Window>, times: seq<int>, start: int, end: int)
    requires InOrder(times) && times != [] && times[|times| - 1] < start
    ensures AdmittedIn(ws, times, start, end) == 0
    decreases |times|
  {
    if |times| > 1 { NoneYet(ws, times[..|times| - 1], start, end); }
  }

  lemma {:induction false} AdmittedSplits(ws: seq<Window>, times: seq<int>, start: int, middle: int, end: int)
    requires start <= middle <= end
    ensures AdmittedIn(ws, times, start, end) == AdmittedIn(ws, times, start, middle) + AdmittedIn(ws, times, middle, end)
    decreases |times|
  {
    if times != [] { AdmittedSplits(ws, times[..|times| - 1], start, middle, end); }
  }

  /** Any interval as long as a window, wherever it begins, admits at most twice the window's maximum. */
  lemma AtMostTwice(ws: seq<Window>, times: seq<int>, i: nat, start: int)
    requires Good(ws) && i < |ws| && InOrder(times)
    ensures AdmittedIn(ws, times, start, start + ws[i].len) <= 2 * ws[i].max
  {
    var w := ws[i];
    var a := StartOf(start, w.len);
    StartBounds(start, w.len);
    AdmittedSplits(ws, times, a, start, a + 2 * w.len);
    AdmittedSplits(ws, times, start, start + w.len, a + 2 * w.len);
    AdmittedSplits(ws, times, a, a + w.len, a + 2 * w.len);
    SlotCounts(ws, times, i, start);
    SlotCounts(ws, times, i, start + w.len);
    StartsApart(start, start + w.len, w.len);
    StartBounds(start + w.len, w.len);
  }

  // -- The bounded map --------------------------------------------------------

  /** The counters of every actor, least recently touched first. */
  datatype Table = Table(order: seq<string>, cells: map<string, Cell>)

  ghost predicate Valid(tb: Table, cap: nat) {
    && Distinct(tb.order)
    && (forall k :: k in tb.cells <==> k in tb.order)
    && |tb.order| <= cap
  }

  /** The order without a key. */
  function Without(order: seq<string>, key: string): seq<string>
    decreases |order|
  {
    if order == [] then [] else if order[0] == key then order[1..] else [order[0]] + Without(order[1..], key)
  }

  /** touch: the key moves to the end; a new one may push the oldest out. */
  function Touched(tb: Table, key: string, cap: nat): Table {
    if key in tb.cells then tb.(order := Without(tb.order, key) + [key])
    else
      var order := tb.order + [key];
      var cells := tb.cells[key := map[]];
      if |order| > cap then Table(order[1..], cells - {order[0]}) else Table(order, cells)
  }

  /** The cell of an actor; one that is not there is empty. */
  function CellOf(tb: Table, key: string): Cell { if key in tb.cells then tb.cells[key] else map[] }

  function Hit(tb: Table, key: string, ws: seq<Window>, t: int, cap: nat): (Table, Decision) {
    var touched := Touched(tb, key, cap);
    var (cell, d) := CellHit(CellOf(touched, key), ws, t);
    (touched.(cells := touched.cells[key := cell]), d)
  }

  lemma {:induction false} WithoutIs(order: seq<string>, key: string)
    requires key in order && forall i, j :: 0 <= i < j < |order| ==> order[i] != order[j]
    ensures |Without(order, key)| == |order| - 1 && key !in Without(order, key)
    ensures forall k :: k != key ==> (k in Without(order, key) <==> k in order)
    ensures forall i, j :: 0 <= i < j < |Without(order, key)| ==> Without(order, key)[i] != Without(order, key)[j]
    decreases |order|
  {
    var (head, rest) := (order[0], order[1..]);
    assert order == [head] + rest;
    if head == key {
      assert forall i :: 0 <= i < |rest| ==> rest[i] == order[i + 1];
    } else {
      WithoutIs(rest, key);
      assert head !in rest;
    }
  }

  lemma TouchKeeps(tb: Table, key: string, cap: nat)
    requires Valid(tb, cap) && cap >= 1
    ensures Valid(Touched(tb, key, cap), cap) && key in Touched(tb, key, cap).cells
    ensures
      var order := Touched(tb, key, cap).order;
      order != [] && order[|order| - 1] == key
  {
    if key in tb.cells {
      var rest := Without(tb.order, key);
      WithoutIs(tb.order, key);
      assert forall k :: k in rest + [key] <==> k in rest || k == key;
      assert Distinct(rest + [key]);
    } else {
      TouchNew(tb, key, cap);
    }
  }

  lemma TouchNew(tb: Table, key: string, cap: nat)
    requires Valid(tb, cap) && cap >= 1 && key !in tb.cells
    ensures Valid(Touched(tb, key, cap), cap) && key in Touched(tb, key, cap).cells
    ensures Touched(tb, key, cap).order != [] && Touched(tb, key, cap).order[|Touched(tb, key, cap).order| - 1] == key
  {
    var order := tb.order + [key];
    AddLast(tb.order, key);
    if |order| > cap { DropFirst(order); }
  }

  lemma AddLast(order: seq<string>, key: string)
    requires Distinct(order) && key !in order
    ensures Distinct(order + [key]) && forall k :: k in order + [key] <==> k in order || k == key
  {
  }

  lemma DropFirst(order: seq<string>)
    requires Distinct(order) && order != []
    ensures Distinct(order[1..]) && forall k :: k in order[1..] <==> k in order && k != order[0]
    ensures |order| > 1 ==> order[1..][|order| - 2] == order[|order| - 1]
  {
    var rest := order[1..];
    assert order == [order[0]] + rest;
    assert forall i :: 0 <= i < |rest| ==> rest[i] == order[i + 1];
  }

  /** The map stays within its bound, and the key just touched is in it, last in line. */
  lemma HitKeeps(tb: Table, key: string, ws: seq<Window>, t: int, cap: nat)
    requires Valid(tb, cap) && cap >= 1
    ensures Valid(Hit(tb, key, ws, t, cap).0, cap)
    ensures
      var order := Hit(tb, key, ws, t, cap).0.order;
      order != [] && order[|order| - 1] == key
  {
    TouchKeeps(tb, key, cap);
    var (touched, next) := (Touched(tb, key, cap), Hit(tb, key, ws, t, cap).0);
    assert next.order == touched.order && next.cells.Keys == touched.cells.Keys;
  }

  class ActorLimiter {
    const maxActors: nat
    var order: seq<string>
    var cells: map<string, Cell>
    var allowed: nat
    var limited: nat

    ghost function Contents(): Table
      reads this
    {
      Table(order, cells)
    }

    constructor (maxActors: nat)
      ensures Contents() == Table([], map[]) && this.maxActors == maxActors && allowed == 0 && limited == 0
    {
      this.maxActors := maxActors;
      order, cells, allowed, limited := [], map[], 0, 0;
    }

    method Touch(key: string)
      modifies `order, `cells
      ensures Contents() == Touched(old(Contents()), key, maxActors)
    {
      if key in cells {
        order := Without(order, key) + [key];
      } else {
        order := order + [key];
        cells := cells[key := map[]];
        if |order| > maxActors {
          cells := cells - {order[0]};
          order := order[1..];
        }
      }
    }

    /** The loop over the windows: each is rolled over when its time has passed, then checked. */
    method Check(cell: Cell, ws: seq<Window>, t: int) returns (c: Cell, worst: Decision)
      requires Good(ws)
      ensures c == Roll(cell, ws, t) && worst == Worst(cell, ws, t)
    {
      c, worst := cell, Admitted;
      var i := 0;
      while i < |ws|
        invariant 0 <= i <= |ws|
        invariant c == Roll(cell, ws[..i], t) && worst == Worst(cell, ws[..i], t)
      {
        TakeSnoc(ws, i);
        var w := ws[i];
        var start := StartOf(t, w.len);
        RollSkips(cell, ws[..i], t, w.name);
        if w.name !in c || c[w.name].start != start { c := c[w.name := Slot(start, 0)]; }
        assert c == Roll(cell, ws[..i + 1], t);
        if c[w.name].count >= w.max {
          var retry := start + w.len - t;
          if worst.Admitted? || retry > worst.retry { worst := Refused(i, retry); }
        }
        i := i + 1;
      }
      assert ws[..i] == ws;
    }

    /** The loop that counts an admitted request in every window. */
    method Count(cell: Cell, ws: seq<Window>) returns (c: Cell)
      ensures c == CountAll(cell, ws)
    {
      c := cell;
      var i := 0;
      while i < |ws|
        invariant 0 <= i <= |ws| && c == CountAll(cell, ws[..i])
      {
        TakeSnoc(ws, i);
        if ws[i].name in c { c := c[ws[i].name := Slot(c[ws[i].name].start, c[ws[i].name].count + 1)]; }
        i := i + 1;
      }
      assert ws[..i] == ws;
    }

    method Local(key: string, ws: seq<Window>, t: int) returns (d: Decision)
      requires Good(ws)
      modifies this
      ensures Contents() == Hit(old(Contents()), key, ws, t, maxActors).0
      ensures d == Hit(old(Contents()), key, ws, t, maxActors).1
      ensures allowed == old(allowed) + (if d.Admitted? then 1 else 0)
      ensures limited == old(limited) + (if d.Admitted? then 0 else 1)
    {
      Touch(key);
      var c;
      c, d := Check(CellOf(Table(order, cells), key), ws, t);
      if d.Refused? {
        limited := limited + 1;
      } else {
        c := Count(c, ws);
        allowed := allowed + 1;
      }
      cells := cells[key := c];
    }
  }

  lemma {:induction false} RollSkips(cell: Cell, ws: seq<Window>, t: int, name: string)
    requires forall i :: 0 <= i < |ws| ==> ws[i].name != name
    ensures name in Roll(cell, ws, t) <==> name in cell
    ensures name in cell ==> Roll(cell, ws, t)[name] == cell[name]
    decreases |ws|
  {
    if ws != [] { RollSkips(cell, ws[..|ws| - 1], t, name); }
  }

  // -- Runs of the bounded map ------------------------------------------------

  datatype Request = Request(key: string, t: int)

  /** The windows of each actor's key, and the bound. */
  datatype Config = Config(windows: string -> seq<Window>, cap: nat)

  function After(reqs: seq<Request>, c: Config): Table
    decreases |reqs|
  {
    if reqs == [] then Table([], map[])
    else
      var r := reqs[|reqs| - 1];
      Hit(After(reqs[..|reqs| - 1], c), r.key, c.windows(r.key), r.t, c.cap).0
  }

  function Decided(reqs: seq<Request>, c: Config): Decision
    requires reqs != []
  {
    var r := reqs[|reqs| - 1];
    Hit(After(reqs[..|reqs| - 1], c), r.key, c.windows(r.key), r.t, c.cap).1
  }

  /** The times of one actor's requests. */
  function TimesOf(reqs: seq<Request>, key: string): seq<int>
    decreases |reqs|
  {
    if reqs == [] then []
    else TimesOf(reqs[..|reqs| - 1], key) + (if reqs[|reqs| - 1].key == key then [reqs[|reqs| - 1].t] else [])
  }

  /** The actor is never evicted: at every point after its first request its counters are there. */
  ghost predicate NeverEvicted(reqs: seq<Request>, key: string, c: Config) {
    forall m :: 0 <= m <= |reqs| && TimesOf(reqs[..m], key) != [] ==> key in After(reqs[..m], c).cells
  }

  lemma {:induction false} RunKeeps(reqs: seq<Request>, c: Config)
    requires c.cap >= 1
    ensures Valid(After(reqs, c), c.cap)
    decreases |reqs|
  {
    if reqs != [] {
      RunKeeps(reqs[..|reqs| - 1], c);
      var r := reqs[|reqs| - 1];
      HitKeeps(After(reqs[..|reqs| - 1], c), r.key, c.windows(r.key), r.t, c.cap);
    }
  }

  /** Touching one key leaves the counters of another as they are, unless it is pushed out. */
  lemma HitElsewhere(tb: Table, other: string, key: string, ws: seq<Window>, t: int, cap: nat)
    requires other != key
    ensures
      var next := Hit(tb, other, ws, t, cap).0;
      (key in next.cells ==> key in tb.cells && next.cells[key] == tb.cells[key])
  {
  }

  lemma FrontStays(reqs: seq<Request>, key: string, c: Config)
    requires reqs != [] && NeverEvicted(reqs, key, c)
    ensures NeverEvicted(reqs[..|reqs| - 1], key, c)
  {
    var front := reqs[..|reqs| - 1];
    forall m | 0 <= m <= |front| && TimesOf(front[..m], key) != [] ensures key in After(front[..m], c).cells {
      assert front[..m] == reqs[..m];
    }
  }

  /** An actor that is never evicted is counted as if it were alone. */
  lemma {:induction false} CountedAlone(reqs: seq<Request>, key: string, c: Config)
    requires c.cap >= 1 && NeverEvicted(reqs, key, c)
    ensures CellOf(After(reqs, c), key) == CellAfter(c.windows(key), TimesOf(reqs, key))
    ensures reqs != [] && reqs[|reqs| - 1].key == key ==>
      Decided(reqs, c) == LastDecision(c.windows(key), TimesOf(reqs, key))
    ensures TimesOf(reqs, key) == [] ==> key !in After(reqs, c).cells
    decreases |reqs|
  {
    if reqs != [] {
      var (front, r) := (reqs[..|reqs| - 1], reqs[|reqs| - 1]);
      FrontStays(reqs, key, c);
      CountedAlone(front, key, c);
      RunKeeps(front, c);
      if r.key == key {
        assert TimesOf(reqs, key)[..|TimesOf(front, key)|] == TimesOf(front, key);
        HitOwn(After(front, c), key, c.windows(key), r.t, c.cap);
      } else {
        HitElsewhere(After(front, c), r.key, key, c.windows(r.key), r.t, c.cap);
        assert reqs[..|reqs|] == reqs;
        assert TimesOf(reqs, key) == TimesOf(front, key);
      }
    }
  }

  lemma HitOwn(tb: Table, key: string, ws: seq<Window>, t: int, cap: nat)
    requires Valid(tb, cap) && cap >= 1
    ensures Hit(tb, key, ws, t, cap).0.cells[key] == CellHit(CellOf(tb, key), ws, t).0
    ensures Hit(tb, key, ws, t, cap).1 == CellHit(CellOf(tb, key), ws, t).1
  {
    if key !in tb.cells && |tb.order| + 1 > cap { assert tb.order[0] in tb.cells; }
  }

  /** How many of an actor's requests were admitted at a time in [from, end). */
  function AdmittedBy(reqs: seq<Request>, key: string, start: int, end: int, c: Config): nat
    decreases |reqs|
  {
    if reqs == [] then 0
    else
      var r := reqs[|reqs| - 1];
      AdmittedBy(reqs[..|reqs| - 1], key, start, end, c)
        + (if r.key == key && start <= r.t < end && Decided(reqs, c).Admitted? then 1 else 0)
  }

  lemma {:induction false} AdmittedAlone(reqs: seq<Request>, key: string, start: int, end: int, c: Config)
    requires c.cap >= 1 && NeverEvicted(reqs, key, c)
    ensures AdmittedBy(reqs, key, start, end, c) == AdmittedIn(c.windows(key), TimesOf(reqs, key), start, end)
    decreases |reqs|
  {
    if reqs != [] {
      var (front, r) := (reqs[..|reqs| - 1], reqs[|reqs| - 1]);
      FrontStays(reqs, key, c);
      AdmittedAlone(front, key, start, end, c);
      assert TimesOf(reqs, key) == if r.key == key then TimesOf(front, key) + [r.t] else TimesOf(front, key);
      if r.key == key {
        assert Decided(reqs, c) == LastDecision(c.windows(key), TimesOf(reqs, key)) by { CountedAlone(reqs, key, c); }
        TakesLast(c.windows(key), TimesOf(front, key), r.t, start, end);
      }
    }
  }

  lemma TakesLast(ws: seq<Window>, times: seq<int>, t: int, start: int, end: int)
    ensures AdmittedIn(ws, times + [t], start, end)
         == AdmittedIn(ws, times, start, end) + (if start <= t < end
             && LastDecision(ws, times + [t]).Admitted? then 1 else 0)
  {
    assert (times + [t])[..|times|] == times;
  }

  lemma {:induction false} TimesInOrder(reqs: seq<Request>, key: string)
    requires forall i, j :: 0 <= i < j < |reqs| ==> reqs[i].t <= reqs[j].t
    ensures InOrder(TimesOf(reqs, key))
    ensures forall i :: 0 <= i < |TimesOf(reqs, key)| ==>
      exists j :: 0 <= j < |reqs| && reqs[j].t == TimesOf(reqs, key)[i]
    decreases |reqs|
  {
    if reqs != [] {
      var (front, times) := (reqs[..|reqs| - 1], TimesOf(reqs, key));
      TimesInOrder(front, key);
      forall i | 0 <= i < |times| ensures exists j :: 0 <= j < |reqs| && reqs[j].t == times[i] {
        if i < |TimesOf(front, key)| {
          var j :| 0 <= j < |front| && front[j].t == TimesOf(front, key)[i];
          assert reqs[j].t == times[i];
        } else {
          assert reqs[|reqs| - 1].t == times[i];
        }
      }
    }
  }

  // -- What an eviction takes -------------------------------------------------

  function KeysOf(reqs: seq<Request>): set<string> { set i | 0 <= i < |reqs| :: reqs[i].key }

  function Continued(tb: Table, reqs: seq<Request>, c: Config): Table
    decreases |reqs|
  {
    if reqs == [] then tb
    else
      var r := reqs[|reqs| - 1];
      Hit(Continued(tb, reqs[..|reqs| - 1], c), r.key, c.windows(r.key), r.t, c.cap).0
  }

  /** The keys behind `key` in the line are exactly `keys`. */
  ghost predicate Behind(order: seq<string>, key: string, keys: set<string>) {
    exists p :: 0 <= p < |order| && order[p] == key && Exactly(order[p + 1..], keys)
  }

  ghost predicate Exactly(s: seq<string>, keys: set<string>) { forall k :: k in s <==> k in keys }

  lemma {:induction false} DistinctSize(s: seq<string>, keys: set<string>)
    requires Distinct(s) && Exactly(s, keys)
    ensures |s| == |keys|
    decreases |s|
  {
    if s == [] {
      assert keys == {};
    } else {
      var (front, last) := (s[..|s| - 1], s[|s| - 1]);
      assert s == front + [last] && last !in front;
      DistinctSize(front, keys - {last});
    }
  }

  lemma {:induction false} WithoutLeft(a: seq<string>, b: seq<string>, other: string)
    requires other in a
    ensures Without(a + b, other) == Without(a, other) + b && |Without(a, other)| == |a| - 1
    decreases |a|
  {
    assert a + b == [a[0]] + (a[1..] + b);
    if a[0] != other { WithoutLeft(a[1..], b, other); }
  }

  lemma {:induction false} WithoutRight(a: seq<string>, b: seq<string>, other: string)
    requires other !in a
    ensures Without(a + b, other) == a + Without(b, other)
    decreases |a|
  {
    if a == [] {
      assert a + b == b;
    } else {
      assert a + b == [a[0]] + (a[1..] + b);
      WithoutRight(a[1..], b, other);
    }
  }

  lemma {:induction false} WithoutOthers(s: seq<string>, other: string)
    ensures forall k :: k != other ==> (k in Without(s, other) <==> k in s)
    decreases |s|
  {
    if s != [] {
      assert s == [s[0]] + s[1..];
      WithoutOthers(s[1..], other);
    }
  }

  /** One more actor at the end of the line is one more behind. */
  lemma OneMoreBehind(before: seq<string>, key: string, after: seq<string>, other: string, keys: set<string>,
      next: seq<string>)
    requires next == before + [key] + after + [other] && forall k :: k != other ==> (k in after <==> k in keys)
    ensures Behind(next, key, keys + {other}) && key in next
  {
    assert next[|before|] == key && next[|before| + 1..] == after + [other];
    forall k ensures k in after + [other] <==> k in keys + {other} {
      assert k in after + [other] <==> k in after || k == other;
    }
    assert Exactly(next[|before| + 1..], keys + {other});
  }

  lemma MovedLeft(a: seq<string>, key: string, b: seq<string>, other: string, keys: set<string>, order: seq<string>)
    requires order == a + ([key] + b) && Exactly(b, keys) && other in a
    ensures Behind(Without(order, other) + [other], key, keys + {other}) && key in Without(order, other) + [other]
  {
    WithoutLeft(a, [key] + b, other);
    var (w, next) := (Without(a, other), Without(order, other) + [other]);
    assert next == w + [key] + b + [other];
    OneMoreBehind(w, key, b, other, keys, next);
  }

  lemma MovedRight(a: seq<string>, key: string, b: seq<string>, other: string, keys: set<string>, order: seq<string>)
    requires order == (a + [key]) + b && Exactly(b, keys) && other !in a && other != key
    ensures Behind(Without(order, other) + [other], key, keys + {other}) && key in Without(order, other) + [other]
  {
    WithoutRight(a + [key], b, other);
    WithoutOthers(b, other);
    OneMoreBehind(a, key, Without(b, other), other, keys, Without(order, other) + [other]);
  }

  lemma SplitMembers(a: seq<string>, key: string, b: seq<string>, order: seq<string>)
    requires order == a + ([key] + b) && Distinct(order)
    ensures key !in a && key !in b && Distinct(b) && forall k :: k in a ==> k !in b
  {
    assert forall i :: 0 <= i < |a| ==> order[i] == a[i];
    assert order[|a|] == key;
    assert forall j :: 0 <= j < |b| ==> order[|a| + 1 + j] == b[j];
    forall k | k in a ensures k !in b {
      var i :| 0 <= i < |a| && a[i] == k;
      forall j | 0 <= j < |b| ensures b[j] != k {
        assert order[|a| + 1 + j] == b[j] && order[i] == k;
      }
    }
  }

  lemma Slices(order: seq<string>, p: nat)
    requires p < |order|
    ensures
      var (a, b) := (order[..p], order[p + 1..]);
      order == a + ([order[p]] + b) && order == (a + [order[p]]) + b
  {
  }

  /** The line around a key. */
  lemma Around(order: seq<string>, key: string, keys: set<string>) returns (a: seq<string>, b: seq<string>)
    requires Distinct(order) && Behind(order, key, keys)
    ensures order == a + ([key] + b) && order == (a + [key]) + b && Exactly(b, keys) && |b| == |keys|
    ensures key !in a && key !in b
    ensures forall k :: k in a ==> k !in keys
  {
    var p :| 0 <= p < |order| && order[p] == key && Exactly(order[p + 1..], keys);
    Slices(order, p);
    a, b := order[..p], order[p + 1..];
    SplitMembers(a, key, b, order);
    DistinctSize(b, keys);
  }

  /** The line after a request: the actor at its end, and the head gone when a new actor finds the line full. */
  function Shifted(order: seq<string>, other: string, cap: nat): seq<string> {
    if other in order then Without(order, other) + [other]
    else if |order| < cap then order + [other] else (order + [other])[1..]
  }

  lemma HitShifts(tb: Table, r: Request, c: Config)
    requires Valid(tb, c.cap) && c.cap >= 1
    ensures Hit(tb, r.key, c.windows(r.key), r.t, c.cap).0.order == Shifted(tb.order, r.key, c.cap)
  {
  }

  lemma OneMoreSize(keys: set<string>, k: string)
    ensures |keys + {k}| == if k in keys then |keys| else |keys| + 1
  {
    if k in keys { assert keys + {k} == keys; }
  }

  /** One request of another actor: the key keeps its place, or is pushed out when it was at the head of a full line. */
  lemma ShiftedBehind(order: seq<string>, key: string, other: string, keys: set<string>, cap: nat)
    requires Distinct(order) && |order| <= cap && Behind(order, key, keys) && other != key
    ensures key in Shifted(order, other, cap) <==> |keys + {other}| < cap
    ensures key in Shifted(order, other, cap) ==> Behind(Shifted(order, other, cap), key, keys + {other})
  {
    var a, b := Around(order, key, keys);
    OneMoreSize(keys, other);
    assert other in order <==> other in a || other in b;
    if other in a {
      MovedLeft(a, key, b, other, keys, order);
    } else if other in keys {
      MovedRight(a, key, b, other, keys, order);
    } else {
      NewBehind(order, a, key, b, other, keys, cap);
    }
  }

  lemma NewBehind(order: seq<string>, a: seq<string>, key: string, b: seq<string>, other: string, keys: set<string>,
      cap: nat)
    requires order == a + ([key] + b) && |order| <= cap && Exactly(b, keys) && |b| == |keys| && other !in order
    requires key !in a
    requires key !in b && key != other
    ensures key in Shifted(order, other, cap) <==> |keys| + 1 < cap
    ensures key in Shifted(order, other, cap) ==> Behind(Shifted(order, other, cap), key, keys + {other})
  {
    var next := Shifted(order, other, cap);
    if |order| < cap {
      assert next == a + [key] + b + [other];
      OneMoreBehind(a, key, b, other, keys, next);
    } else if a != [] {
      assert next == a[1..] + [key] + b + [other];
      OneMoreBehind(a[1..], key, b, other, keys, next);
    } else {
      assert next == b + [other];
    }
  }

  lemma OneMore(tb: Table, key: string, r: Request, keys: set<string>, c: Config)
    requires Valid(tb, c.cap) && c.cap >= 1 && Behind(tb.order, key, keys) && r.key != key
    ensures
      var next := Hit(tb, r.key, c.windows(r.key), r.t, c.cap).0;
      && (key in next.cells <==> |keys + {r.key}| < c.cap)
      && (key in next.cells ==> Behind(next.order, key, keys + {r.key}))
  {
    HitShifts(tb, r, c);
    HitKeeps(tb, r.key, c.windows(r.key), r.t, c.cap);
    ShiftedBehind(tb.order, key, r.key, keys, c.cap);
  }

  /**
   * What an eviction takes, exactly: an actor is pushed out when, and only when, maxActors other actors have made a
   * request since its last one.
   */
  lemma {:induction false} EvictionIff(tb: Table, key: string, reqs: seq<Request>, c: Config)
    requires Valid(tb, c.cap) && c.cap >= 1 && tb.order != [] && tb.order[|tb.order| - 1] == key && key !in KeysOf(reqs)
    ensures Valid(Continued(tb, reqs, c), c.cap)
    ensures key in Continued(tb, reqs, c).cells <==> |KeysOf(reqs)| < c.cap
    ensures key in Continued(tb, reqs, c).cells ==> Behind(Continued(tb, reqs, c).order, key, KeysOf(reqs))
    decreases |reqs|
  {
    if reqs == [] {
      var n := |tb.order| - 1;
      assert tb.order[n] in tb.order;
      assert KeysOf(reqs) == {} && tb.order[n + 1..] == [] && Exactly(tb.order[n + 1..], {});
    } else {
      var (front, r) := (reqs[..|reqs| - 1], reqs[|reqs| - 1]);
      assert KeysOf(reqs) == KeysOf(front) + {r.key} by { assert reqs == front + [r]; KeysSnoc(front, r); }
      EvictionIff(tb, key, front, c);
      var before := Continued(tb, front, c);
      HitKeeps(before, r.key, c.windows(r.key), r.t, c.cap);
      if key in before.cells {
        OneMore(before, key, r, KeysOf(front), c);
      } else {
        HitElsewhere(before, r.key, key, c.windows(r.key), r.t, c.cap);
        Grows(KeysOf(front), r.key);
      }
    }
  }

  lemma KeysJoin(a: seq<Request>, b: seq<Request>)
    ensures KeysOf(a + b) == KeysOf(a) + KeysOf(b)
  {
    var all := a + b;
    forall k | k in KeysOf(a) ensures k in KeysOf(all) {
      var i :| 0 <= i < |a| && a[i].key == k;
      assert all[i].key == k;
    }
    forall k | k in KeysOf(b) ensures k in KeysOf(all) {
      var i :| 0 <= i < |b| && b[i].key == k;
      assert all[|a| + i].key == k;
    }
  }

  lemma KeysSnoc(front: seq<Request>, r: Request)
    ensures KeysOf(front + [r]) == KeysOf(front) + {r.key}
  {
    KeysJoin(front, [r]);
    assert [r][0].key in KeysOf([r]);
  }

  lemma Grows(keys: set<string>, k: string)
    ensures |keys + {k}| >= |keys|
  {
    if k in keys { assert keys + {k} == keys; } else { assert keys + {k} - {k} == keys; }
  }

  // -- Who is never evicted ---------------------------------------------------

  lemma {:induction false} ContinuedIs(done: seq<Request>, more: seq<Request>, c: Config)
    ensures After(done + more, c) == Continued(After(done, c), more, c)
    decreases |more|
  {
    if more == [] {
      assert done + more == done;
    } else {
      var front := more[..|more| - 1];
      TakeSnoc(more, |front|);
      assert more[..|front| + 1] == more;
      ContinuedIs(done, front, c);
      ContinuedOneMore(done, front, more[|front|], c, done + front);
    }
  }

  lemma ContinuedOneMore(done: seq<Request>, front: seq<Request>, r: Request, c: Config, all: seq<Request>)
    requires all == done + front && After(all, c) == Continued(After(done, c), front, c)
    ensures After(done + (front + [r]), c) == Continued(After(done, c), front + [r], c)
  {
    ContinuedSnoc(After(done, c), front, r, c);
    AfterSnoc(all, r, c);
    assert done + (front + [r]) == all + [r];
  }

  function Next(tb: Table, r: Request, c: Config): Table { Hit(tb, r.key, c.windows(r.key), r.t, c.cap).0 }

  lemma ContinuedSnoc(tb: Table, front: seq<Request>, r: Request, c: Config)
    ensures Continued(tb, front + [r], c) == Next(Continued(tb, front, c), r, c)
  {
    assert (front + [r])[..|front|] == front;
  }

  lemma AfterSnoc(front: seq<Request>, r: Request, c: Config)
    ensures After(front + [r], c) == Next(After(front, c), r, c)
  {
    assert (front + [r])[..|front|] == front;
  }

  /** Request l is the actor's, and the next ones up to m are others'. */
  ghost predicate LastOwn(reqs: seq<Request>, key: string, l: int, m: int) {
    0 <= l < m <= |reqs| && reqs[l].key == key && key !in KeysOf(reqs[l + 1..m])
  }

  lemma KeptSince(reqs: seq<Request>, key: string, c: Config, l: int, m: int)
    requires c.cap >= 1 && LastOwn(reqs, key, l, m)
    ensures key in After(reqs[..m], c).cells <==> |KeysOf(reqs[l + 1..m])| < c.cap
  {
    var (own, tb) := (reqs[..l + 1], After(reqs[..l + 1], c));
    RunKeeps(own, c);
    RunKeeps(own[..l], c);
    HitKeeps(After(own[..l], c), key, c.windows(key), reqs[l].t, c.cap);
    ContinuedIs(own, reqs[l + 1..m], c);
    assert reqs[..m] == own + reqs[l + 1..m];
    EvictionIff(tb, key, reqs[l + 1..m], c);
  }

  /** Whoever has made a request has made a last one. */
  lemma {:induction false} HasLast(reqs: seq<Request>, key: string, m: nat) returns (l: int)
    requires m <= |reqs| && TimesOf(reqs[..m], key) != []
    ensures LastOwn(reqs, key, l, m)
  {
    assert reqs[..m][..m - 1] == reqs[..m - 1];
    if reqs[m - 1].key == key {
      l := m - 1;
      assert reqs[l + 1..m] == [];
    } else {
      l := HasLast(reqs, key, m - 1);
      StillLast(reqs, key, l, m);
    }
  }

  lemma StillLast(reqs: seq<Request>, key: string, l: int, m: nat)
    requires 1 <= m <= |reqs| && LastOwn(reqs, key, l, m - 1) && reqs[m - 1].key != key
    ensures LastOwn(reqs, key, l, m)
  {
    var front := reqs[l + 1..m - 1];
    assert reqs[l + 1..m] == front + [reqs[m - 1]];
    KeysSnoc(front, reqs[m - 1]);
  }

  lemma {:induction false} OwnHasTime(reqs: seq<Request>, key: string, l: nat)
    requires l < |reqs| && reqs[l].key == key
    ensures TimesOf(reqs, key) != []
    decreases |reqs|
  {
    if l < |reqs| - 1 { OwnHasTime(reqs[..|reqs| - 1], key, l); }
  }

  /**
   * An actor is never evicted exactly when, after each of its requests, fewer than maxActors others come before its
   * next.
   */
  lemma NeverEvictedIff(reqs: seq<Request>, key: string, c: Config)
    requires c.cap >= 1
    ensures NeverEvicted(reqs, key, c) <==> forall l, m :: LastOwn(reqs, key, l, m) ==> |KeysOf(reqs[l + 1..m])| < c.cap
  {
    forall l, m | NeverEvicted(reqs, key, c) && LastOwn(reqs, key, l, m) ensures |KeysOf(reqs[l + 1..m])| < c.cap {
      OwnHasTime(reqs[..m], key, l);
      KeptSince(reqs, key, c, l, m);
    }
    if forall l, m :: LastOwn(reqs, key, l, m) ==> |KeysOf(reqs[l + 1..m])| < c.cap {
      forall m | 0 <= m <= |reqs| && TimesOf(reqs[..m], key) != [] ensures key in After(reqs[..m], c).cells {
        var l := HasLast(reqs, key, m);
        KeptSince(reqs, key, c, l, m);
      }
    }
  }

  // -- The limit, over the requests of everyone -------------------------------

  /** Between two requests of the actor fewer than `cap` other actors make one. */
  ghost predicate Steady(reqs: seq<Request>, key: string, cap: nat) {
    forall l, m :: 0 <= l < m < |reqs| && reqs[m].key == key && LastOwn(reqs, key, l, m) ==>
      |KeysOf(reqs[l + 1..m])| < cap
  }

  lemma {:induction false} SubsetSize(a: set<string>, b: set<string>)
    requires a <= b
    ensures |a| <= |b|
  {
    var rest := b - a;
    assert a + rest == b && a * rest == {};
  }

  /** The actor's next request from m on. */
  lemma {:induction false} NextOwn(reqs: seq<Request>, key: string, m: nat) returns (n: nat)
    requires m < |reqs| && reqs[|reqs| - 1].key == key
    ensures m <= n < |reqs| && reqs[n].key == key && key !in KeysOf(reqs[m..n])
    decreases |reqs| - m
  {
    if reqs[m].key == key {
      n := m;
      assert reqs[m..n] == [];
    } else {
      n := NextOwn(reqs, key, m + 1);
      assert reqs[m..n] == [reqs[m]] + reqs[m + 1..n];
      KeysJoin([reqs[m]], reqs[m + 1..n]);
    }
  }

  lemma LastIn(reqs: seq<Request>, l: nat)
    requires l <= |reqs|
    ensures l < |reqs| ==> reqs[|reqs| - 1].key in KeysOf(reqs[l..])
  {
    if l < |reqs| { assert reqs[l..][|reqs| - 1 - l].key in KeysOf(reqs[l..]); }
  }

  /** A steady actor is not evicted before its last request. */
  lemma SteadyIsKept(reqs: seq<Request>, key: string, c: Config)
    requires c.cap >= 1 && Steady(reqs, key, c.cap) && reqs != [] && reqs[|reqs| - 1].key == key
    ensures NeverEvicted(reqs, key, c)
  {
    forall l, m | LastOwn(reqs, key, l, m) ensures |KeysOf(reqs[l + 1..m])| < c.cap {
      if m < |reqs| {
        FewSince(reqs, key, c.cap, l, m);
      } else {
        assert reqs[l + 1..m] == reqs[l + 1..];
        LastIn(reqs, l + 1);
        assert l + 1 == |reqs| && KeysOf(reqs[l + 1..m]) == {};
      }
    }
    NeverEvictedIff(reqs, key, c);
  }

  lemma FewSince(reqs: seq<Request>, key: string, cap: nat, l: int, m: nat)
    requires Steady(reqs, key, cap) && LastOwn(reqs, key, l, m) && m < |reqs| && reqs[|reqs| - 1].key == key
    ensures |KeysOf(reqs[l + 1..m])| < cap
  {
    var n := NextOwn(reqs, key, m);
    assert reqs[l + 1..n] == reqs[l + 1..m] + reqs[m..n];
    KeysJoin(reqs[l + 1..m], reqs[m..n]);
    assert LastOwn(reqs, key, l, n);
    SubsetSize(KeysOf(reqs[l + 1..m]), KeysOf(reqs[l + 1..n]));
  }

  lemma SteadyFront(reqs: seq<Request>, key: string, cap: nat)
    requires reqs != [] && Steady(reqs, key, cap)
    ensures Steady(reqs[..|reqs| - 1], key, cap)
  {
    var front := reqs[..|reqs| - 1];
    forall l, m | 0 <= l < m < |front| && front[m].key == key && LastOwn(front, key, l, m)
      ensures |KeysOf(front[l + 1..m])| < cap
    {
      assert front[l + 1..m] == reqs[l + 1..m];
      assert LastOwn(reqs, key, l, m);
    }
  }

  /**
   * The limit itself: among any requests of any actors in order of time, an actor has at most twice a window's maximum
   * admitted in any interval as long as that window, if fewer than maxActors others come between two of its requests.
   */
  lemma {:induction false} ActorIsLimited(reqs: seq<Request>, key: string, i: nat, start: int, c: Config)
    requires c.cap >= 1 && Steady(reqs, key, c.cap) && Good(c.windows(key)) && i < |c.windows(key)|
    requires forall i, j :: 0 <= i < j < |reqs| ==> reqs[i].t <= reqs[j].t
    ensures AdmittedBy(reqs, key, start, start + c.windows(key)[i].len, c) <= 2 * c.windows(key)[i].max
    decreases |reqs|
  {
    if reqs == [] {
      assert AdmittedBy(reqs, key, start, start + c.windows(key)[i].len, c) == 0;
    } else if reqs[|reqs| - 1].key == key {
      SteadyIsKept(reqs, key, c);
      KeptIsLimited(reqs, key, i, start, c);
    } else {
      SteadyFront(reqs, key, c.cap);
      ActorIsLimited(reqs[..|reqs| - 1], key, i, start, c);
    }
  }

  lemma KeptIsLimited(reqs: seq<Request>, key: string, i: nat, start: int, c: Config)
    requires c.cap >= 1 && NeverEvicted(reqs, key, c) && Good(c.windows(key)) && i < |c.windows(key)|
    requires forall i, j :: 0 <= i < j < |reqs| ==> reqs[i].t <= reqs[j].t
    ensures AdmittedBy(reqs, key, start, start + c.windows(key)[i].len, c) <= 2 * c.windows(key)[i].max
  {
    var (ws, times) := (c.windows(key), TimesOf(reqs, key));
    AdmittedAlone(reqs, key, start, start + ws[i].len, c);
    assert InOrder(times) by { TimesInOrder(reqs, key); }
    AtMostTwice(ws, times, i, start);
  }
}
