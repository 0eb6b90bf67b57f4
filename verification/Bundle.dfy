/**
 * The browser bundle (scripts/browser-bundle.js): the depth-first closure of a require graph, cycles included, and the
 * index table it is rendered to. The table holds exactly the reachable modules, once each, and loads them as Node
 * would.
 */
module Bundle {
  import opened Prelude

  /**
   * The files by id, each with what it requires in order; a file that is not there, or is refused, is not in the map.
   */
  type Graph = map<string, seq<string>>

  // -- collect ----------------------------------------------------------------

  /** The ids still to be visited. */
  ghost function Left(g: Graph, order: seq<string>): set<string> { g.Keys - (set i | 0 <= i < |order| :: order[i]) }

  lemma LeftShrinks(g: Graph, order: seq<string>, id: string)
    requires id in g && id !in order
    ensures Left(g, order + [id]) < Left(g, order)
  {
    var next := order + [id];
    assert next[|order|] == id;
    assert forall i :: 0 <= i < |order| ==> next[i] == order[i];
    assert id in Left(g, order) && id !in Left(g, next);
  }

  lemma LeftGrowsNot(g: Graph, order: seq<string>, more: seq<string>)
    requires order <= more
    ensures Left(g, more) <= Left(g, order)
  {
    assert forall i :: 0 <= i < |order| ==> order[i] == more[i];
  }

  /** visit: a module not seen before is added, then what it requires is visited; None when something is refused. */
  function Visit(g: Graph, id: string, order: seq<string>): (r: Option<seq<string>>)
    ensures r.Some? ==> order <= r.value
    decreases |Left(g, order)|, 0, 0
  {
    if id in order then Some(order)
    else if id !in g then None
    else
      LeftShrinks(g, order, id);
      Fewer(Left(g, order + [id]), Left(g, order));
      VisitAll(g, g[id], order + [id])
  }

  function VisitAll(g: Graph, ids: seq<string>, order: seq<string>): (r: Option<seq<string>>)
    ensures r.Some? ==> order <= r.value
    decreases |Left(g, order)|, 1, |ids|
  {
    if ids == [] then Some(order)
    else
      var first := Visit(g, ids[0], order);
      if first.None? then None
      else
        LeftGrowsNot(g, order, first.value);
        FewerOrSame(Left(g, first.value), Left(g, order));
        VisitAll(g, ids[1..], first.value)
  }

  lemma Fewer<T>(a: set<T>, b: set<T>)
    requires a < b
    ensures |a| < |b|
  {
    assert |b - a| > 0 by { var x :| x in b && x !in a; assert x in b - a; }
    assert |a| + |b - a| == |b| by { assert a + (b - a) == b && a * (b - a) == {}; }
  }

  lemma FewerOrSame<T>(a: set<T>, b: set<T>)
    requires a <= b
    ensures |a| <= |b|
  {
    if a < b { Fewer(a, b); } else { assert a == b; }
  }

  function Collect(g: Graph, entry: string): Option<seq<string>> { Visit(g, entry, []) }

  class Collector {
    const g: Graph
    var order: seq<string>

    constructor (g: Graph)
      ensures this.g == g && order == []
    {
      this.g := g;
      order := [];
    }

    /** visit, with the shared list that is both the order and what was seen. */
    method Run(id: string) returns (ok: bool)
      modifies this
      ensures ok <==> Visit(g, id, old(order)).Some?
      ensures ok ==> order == Visit(g, id, old(order)).value
      decreases |Left(g, order)|, 0, 0
    {
      if id in order { return true; }
      if id !in g { return false; }
      LeftShrinks(g, order, id);
      Fewer(Left(g, order + [id]), Left(g, order));
      order := order + [id];
      ghost var start := order;
      var deps := g[id];
      var i := 0;
      while i < |deps|
        invariant 0 <= i <= |deps| && start <= order
        invariant VisitAll(g, deps, start) == VisitAll(g, deps[i..], order)
      {
        LeftGrowsNot(g, start, order);
        FewerOrSame(Left(g, order), Left(g, start));
        ok := Run(deps[i]);
        if !ok { return false; }
        i := i + 1;
      }
      return true;
    }
  }

  // -- Exactly the reachable modules, once each -------------------------------

  ghost predicate Path(g: Graph, p: seq<string>) {
    p != [] && (forall i :: 0 <= i < |p| ==> p[i] in g) && forall i :: 0 <= i < |p| - 1 ==> p[i + 1] in g[p[i]]
  }

  ghost predicate Reachable(g: Graph, a: string, b: string) { exists p :: Path(g, p) && p[0] == a && p[|p| - 1] == b }

  /** Everything new in `more` can be reached from one of `roots`. */
  ghost predicate NewIsReachable(g: Graph, order: seq<string>, more: seq<string>, roots: seq<string>) {
    forall x :: x in more && x !in order ==> exists r :: r in roots && Reachable(g, r, x)
  }

  /** What was added has all it requires. */
  ghost predicate Closed(g: Graph, order: seq<string>, more: seq<string>) {
    forall x, d :: x in more && x !in order && x in g && d in g[x] ==> d in more
  }

  lemma StepThenPath(g: Graph, a: string, d: string, x: string)
    requires a in g && d in g[a] && Reachable(g, d, x)
    ensures Reachable(g, a, x)
  {
    var p :| Path(g, p) && p[0] == d && p[|p| - 1] == x;
    var q := [a] + p;
    assert forall i :: 0 < i < |q| ==> q[i] == p[i - 1];
    assert Path(g, q);
  }

  lemma {:induction false} VisitIs(g: Graph, id: string, order: seq<string>)
    requires Visit(g, id, order).Some? && Distinct(order) && forall x :: x in order ==> x in g
    ensures
      var more := Visit(g, id, order).value;
      && Distinct(more) && id in more && (forall x :: x in more ==> x in g)
      && NewIsReachable(g, order, more, [id]) && Closed(g, order, more)
    decreases |Left(g, order)|, 0, 0
  {
    var more := Visit(g, id, order).value;
    if id !in order {
      LeftShrinks(g, order, id);
      Fewer(Left(g, order + [id]), Left(g, order));
      var start := order + [id];
      VisitAllIs(g, g[id], start);
      assert start[|order|] == id;
      Within(start, more);
      NewFromOne(g, order, start, more, id);
      ClosedOne(g, order, start, more, id);
    }
  }

  lemma ClosedOne(g: Graph, order: seq<string>, start: seq<string>, more: seq<string>, id: string)
    requires id in g && start == order + [id] && Closed(g, start, more) && forall d :: d in g[id] ==> d in more
    ensures Closed(g, order, more)
  {
    forall x, d | x in more && x !in order && x in g && d in g[x] ensures d in more {
      if x != id { assert x !in start; }
    }
  }

  lemma NewFromOne(g: Graph, order: seq<string>, start: seq<string>, more: seq<string>, id: string)
    requires id in g && start == order + [id] && NewIsReachable(g, start, more, g[id])
    ensures NewIsReachable(g, order, more, [id])
  {
    forall x | x in more && x !in order ensures exists r :: r in [id] && Reachable(g, r, x) {
      if x == id {
        assert Path(g, [id]);
        assert Reachable(g, id, id);
      } else {
        assert x !in start;
        var d :| d in g[id] && Reachable(g, d, x);
        StepThenPath(g, id, d, x);
      }
      assert id in [id];
    }
  }

  lemma {:induction false} VisitAllIs(g: Graph, ids: seq<string>, order: seq<string>)
    requires VisitAll(g, ids, order).Some? && Distinct(order) && forall x :: x in order ==> x in g
    ensures
      var more := VisitAll(g, ids, order).value;
      && Distinct(more) && (forall d :: d in ids ==> d in more) && (forall x :: x in more ==> x in g)
      && NewIsReachable(g, order, more, ids) && Closed(g, order, more)
    decreases |Left(g, order)|, 1, |ids|
  {
    if ids != [] {
      var first := Visit(g, ids[0], order).value;
      var more := VisitAll(g, ids, order).value;
      LeftGrowsNot(g, order, first);
      FewerOrSame(Left(g, first), Left(g, order));
      VisitIs(g, ids[0], order);
      VisitAllIs(g, ids[1..], first);
      Within(first, more);
      NewJoins(g, order, first, more, ids);
      ClosedJoins(g, order, first, more);
      AllIn(ids, more);
    }
  }

  lemma Within(a: seq<string>, b: seq<string>)
    requires a <= b
    ensures forall x :: x in a ==> x in b
  {
    assert forall i :: 0 <= i < |a| ==> a[i] == b[i];
  }

  lemma AllIn(ids: seq<string>, more: seq<string>)
    requires ids != [] && ids[0] in more && forall d :: d in ids[1..] ==> d in more
    ensures forall d :: d in ids ==> d in more
  {
    assert ids == [ids[0]] + ids[1..];
  }

  lemma ClosedJoins(g: Graph, order: seq<string>, first: seq<string>, more: seq<string>)
    requires Closed(g, order, first) && Closed(g, first, more) && first <= more
    ensures Closed(g, order, more)
  {
    Within(first, more);
    forall x, d | x in more && x !in order && x in g && d in g[x] ensures d in more {
      if x in first { assert d in first; }
    }
  }

  lemma NewJoins(g: Graph, order: seq<string>, first: seq<string>, more: seq<string>, ids: seq<string>)
    requires ids != [] && NewIsReachable(g, order, first, [ids[0]]) && NewIsReachable(g, first, more, ids[1..])
    ensures NewIsReachable(g, order, more, ids)
  {
    forall x | x in more && x !in order ensures exists r :: r in ids && Reachable(g, r, x) {
      if x in first {
        var r :| r in [ids[0]] && Reachable(g, r, x);
        assert r in ids;
      } else {
        var r :| r in ids[1..] && Reachable(g, r, x);
        assert r in ids;
      }
    }
  }

  lemma {:induction false} ClosedPath(g: Graph, order: seq<string>, p: seq<string>)
    requires Closed(g, [], order) && Path(g, p) && p[0] in order
    ensures p[|p| - 1] in order
    decreases |p|
  {
    if |p| > 1 {
      assert p[1] in g[p[0]];
      var rest := p[1..];
      assert forall i :: 0 <= i < |rest| ==> rest[i] == p[i + 1];
      assert Path(g, rest);
      ClosedPath(g, order, rest);
    }
  }

  /** The bundle holds exactly the modules reachable from the entry, each of them once, the entry first. */
  lemma CollectsReachable(g: Graph, entry: string, x: string)
    requires Collect(g, entry).Some?
    ensures
      var order := Collect(g, entry).value;
      && Distinct(order) && order != [] && order[0] == entry
      && (x in order <==> Reachable(g, entry, x))
  {
    var order := Collect(g, entry).value;
    VisitIs(g, entry, []);
    assert order[0] == entry by { assert [] + [entry] <= order; assert ([] + [entry])[0] == order[0]; }
    if x in order {
      var r :| r in [entry] && Reachable(g, r, x);
    }
    if Reachable(g, entry, x) {
      var p :| Path(g, p) && p[0] == entry && p[|p| - 1] == x;
      ClosedPath(g, order, p);
    }
  }

  /** Something reachable, or the entry itself, is refused or cannot be resolved. */
  ghost predicate Missing(g: Graph, a: string) {
    a !in g || exists x, d :: Reachable(g, a, x) && x in g && d in g[x] && d !in g
  }

  lemma {:induction false} RefusedIsMissing(g: Graph, id: string, order: seq<string>)
    requires Visit(g, id, order).None?
    ensures Missing(g, id)
    decreases |Left(g, order)|, 0, 0
  {
    if id in g {
      LeftShrinks(g, order, id);
      Fewer(Left(g, order + [id]), Left(g, order));
      var d := AllRefusedIsMissing(g, g[id], order + [id]);
      assert Path(g, [id]);
      assert Reachable(g, id, id);
      if d in g {
        var x, e :| Reachable(g, d, x) && x in g && e in g[x] && e !in g;
        StepThenPath(g, id, d, x);
      }
    }
  }

  lemma {:induction false} AllRefusedIsMissing(g: Graph, ids: seq<string>, order: seq<string>) returns (d: string)
    requires VisitAll(g, ids, order).None?
    ensures d in ids && Missing(g, d)
    decreases |Left(g, order)|, 1, |ids|
  {
    var first := Visit(g, ids[0], order);
    if first.None? {
      RefusedIsMissing(g, ids[0], order);
      d := ids[0];
    } else {
      LeftGrowsNot(g, order, first.value);
      FewerOrSame(Left(g, first.value), Left(g, order));
      d := AllRefusedIsMissing(g, ids[1..], first.value);
    }
  }

  /** Collecting fails exactly when something it would need is refused or cannot be resolved. */
  lemma RefusesIff(g: Graph, entry: string)
    ensures Collect(g, entry).None? <==> Missing(g, entry)
  {
    if Collect(g, entry).None? {
      RefusedIsMissing(g, entry, []);
    } else if Missing(g, entry) {
      VisitIs(g, entry, []);
      var order := Collect(g, entry).value;
      assert entry in g;
      var x, d :| Reachable(g, entry, x) && x in g && d in g[x] && d !in g;
      CollectsReachable(g, entry, x);
      assert false;
    }
  }

  // -- Loading ----------------------------------------------------------------

  /** What a cached require does, as it can be observed: a module is entered, found in the cache, or left. */
  datatype Event<T> = Enter(at: T) | Cached(at: T) | Leave(at: T)

  datatype Loaded<T> = Loaded(cache: seq<T>, trace: seq<Event<T>>)

  ghost function Waiting<T(!new)>(code: map<T, seq<T>>, cache: seq<T>): set<T> {
    code.Keys - (set i | 0 <= i < |cache| :: cache[i])
  }

  lemma WaitingShrinks<T(!new)>(code: map<T, seq<T>>, cache: seq<T>, id: T)
    requires id in code && id !in cache
    ensures |Waiting(code, cache + [id])| < |Waiting(code, cache)|
  {
    var (next, a, b) := (cache + [id], Waiting(code, cache), Waiting(code, cache + [id]));
    assert next[|cache|] == id;
    assert forall i :: 0 <= i < |cache| ==> next[i] == cache[i];
    assert id in a && id !in b && b <= a;
    Fewer(b, a);
  }

  lemma WaitingGrowsNot<T(!new)>(code: map<T, seq<T>>, cache: seq<T>, more: seq<T>)
    requires cache <= more
    ensures |Waiting(code, more)| <= |Waiting(code, cache)|
  {
    assert forall i :: 0 <= i < |cache| ==> cache[i] == more[i];
    var (a, b) := (Waiting(code, cache), Waiting(code, more));
    assert b <= a;
    FewerOrSame(b, a);
  }

  /**
   * A cached require: the cache is filled before the body runs, so a cycle finds the module there. `code` is what
   * each body requires, in order.
   */
  function Load<T(!new, ==)>(code: map<T, seq<T>>, id: T, cache: seq<T>): (r: Loaded<T>)
    ensures cache <= r.cache
    decreases |Waiting(code, cache)|, 0, 0
  {
    if id in cache || id !in code then Loaded(cache, [Cached(id)])
    else
      WaitingShrinks(code, cache, id);
      var body := LoadAll(code, code[id], cache + [id]);
      Loaded(body.cache, [Enter(id)] + body.trace + [Leave(id)])
  }

  function LoadAll<T(!new, ==)>(code: map<T, seq<T>>, ids: seq<T>, cache: seq<T>): (r: Loaded<T>)
    ensures cache <= r.cache
    decreases |Waiting(code, cache)|, 1, |ids|
  {
    if ids == [] then Loaded(cache, [])
    else
      var first := Load(code, ids[0], cache);
      WaitingGrowsNot(code, cache, first.cache);
      var rest := LoadAll(code, ids[1..], first.cache);
      Loaded(rest.cache, first.trace + rest.trace)
  }

  // -- The index table --------------------------------------------------------

  function IndexOf(order: seq<string>, id: string): (i: nat)
    ensures i <= |order| && (i < |order| ==> order[i] == id) && (id in order ==> i < |order|)
    ensures forall j :: 0 <= j < i ==> order[j] != id
  {
    if order == [] then 0 else if order[0] == id then 0 else 1 + IndexOf(order[1..], id)
  }

  function Indices(order: seq<string>, ids: seq<string>): (r: seq<nat>)
    ensures |r| == |ids| && forall i :: 0 <= i < |ids| ==> r[i] == IndexOf(order, ids[i])
  {
    seq(|ids|, i requires 0 <= i < |ids| => IndexOf(order, ids[i]))
  }

  /** render: each body with its requires replaced by table lookups. */
  function Table(order: seq<string>, code: Graph): (t: map<nat, seq<nat>>)
    requires forall i :: 0 <= i < |order| ==> order[i] in code
    ensures forall i :: i in t <==> 0 <= i < |order|
    ensures forall i :: 0 <= i < |order| ==> t[i] == Indices(order, code[order[i]])
  {
    map i: nat | i < |order| :: Indices(order, code[order[i]])
  }

  function Renamed(order: seq<string>, e: Event<string>): Event<nat> {
    match e
    case Enter(id) => Enter(IndexOf(order, id))
    case Cached(id) => Cached(IndexOf(order, id))
    case Leave(id) => Leave(IndexOf(order, id))
  }

  function RenamedAll(order: seq<string>, trace: seq<Event<string>>): (r: seq<Event<nat>>)
    ensures |r| == |trace| && forall i :: 0 <= i < |trace| ==> r[i] == Renamed(order, trace[i])
  {
    seq(|trace|, i requires 0 <= i < |trace| => Renamed(order, trace[i]))
  }

  /** The modules of a bundle: all of them have code, and what the code requires is in the bundle. */
  ghost predicate Bundled(order: seq<string>, code: Graph) {
    forall i :: 0 <= i < |order| ==> order[i] in code && forall d :: d in code[order[i]] ==> d in order
  }

  lemma InIndices(order: seq<string>, cache: seq<string>, id: string)
    requires id in order && forall x :: x in cache ==> x in order
    ensures IndexOf(order, id) in Indices(order, cache) <==> id in cache
  {
    if id in cache {
      var i :| 0 <= i < |cache| && cache[i] == id;
      assert Indices(order, cache)[i] == IndexOf(order, id);
    }
    if IndexOf(order, id) in Indices(order, cache) {
      var i :| 0 <= i < |cache| && Indices(order, cache)[i] == IndexOf(order, id);
      assert cache[i] in cache;
      assert cache[i] == id;
    }
  }

  /** The table does what the files do, under the renaming. */
  ghost predicate Follows(order: seq<string>, there: Loaded<nat>, here: Loaded<string>) {
    there.cache == Indices(order, here.cache) && there.trace == RenamedAll(order, here.trace)
        && forall x :: x in here.cache ==> x in order
  }

  lemma FollowsBody(order: seq<string>, there: Loaded<nat>, here: Loaded<string>, id: string)
    requires Follows(order, there, here)
    ensures
      var k := IndexOf(order, id);
      Follows(order, Loaded(there.cache, [Enter(k)] + there.trace + [Leave(k)]),
          Loaded(here.cache, [Enter(id)] + here.trace + [Leave(id)]))
  {
    var k := IndexOf(order, id);
    RenamedPlus(order, [Enter(id)], here.trace);
    RenamedPlus(order, [Enter(id)] + here.trace, [Leave(id)]);
    assert RenamedAll(order, [Enter(id)]) == [Enter(k)] && RenamedAll(order, [Leave(id)]) == [Leave(k)];
  }

  lemma RenamedPlus(order: seq<string>, a: seq<Event<string>>, b: seq<Event<string>>)
    ensures RenamedAll(order, a + b) == RenamedAll(order, a) + RenamedAll(order, b)
  {
  }

  lemma FollowsThen(order: seq<string>, a: Loaded<nat>, b: Loaded<nat>, x: Loaded<string>, y: Loaded<string>)
    requires Follows(order, a, x) && Follows(order, b, y)
    ensures Follows(order, Loaded(b.cache, a.trace + b.trace), Loaded(y.cache, x.trace + y.trace))
  {
    RenamedPlus(order, x.trace, y.trace);
  }

  ghost predicate IsTable(t: map<nat, seq<nat>>, order: seq<string>, code: Graph) {
    && (forall i :: 0 <= i < |order| ==> order[i] in code && i in t && t[i] == Indices(order, code[order[i]]))
    && Bundled(order, code)
  }

  lemma {:induction false} TableLoads(t: map<nat, seq<nat>>, order: seq<string>, code: Graph, id: string,
      cache: seq<string>)
    requires IsTable(t, order, code) && id in order && forall x :: x in cache ==> x in order
    ensures Follows(order, Load(t, IndexOf(order, id), Indices(order, cache)), Load(code, id, cache))
    decreases |Waiting(code, cache)|, 0, 0
  {
    InIndices(order, cache, id);
    var k := IndexOf(order, id);
    assert order[k] == id && id in code && k in t;
    if id !in cache {
      WaitingShrinks(code, cache, id);
      IndicesSnoc(order, cache, id);
      assert forall d :: d in code[order[k]] ==> d in order;
      TableLoadsAll(t, order, code, code[id], cache + [id]);
      FollowsBody(order, LoadAll(t, t[k], Indices(order, cache) + [k]), LoadAll(code, code[id], cache + [id]), id);
    } else {
      CachedFollows(order, cache, id);
    }
  }

  lemma IndicesSnoc(order: seq<string>, cache: seq<string>, id: string)
    ensures Indices(order, cache + [id]) == Indices(order, cache) + [IndexOf(order, id)]
  {
  }

  lemma CachedFollows(order: seq<string>, cache: seq<string>, id: string)
    requires forall x :: x in cache ==> x in order
    ensures Follows(order, Loaded(Indices(order, cache), [Cached(IndexOf(order, id))]), Loaded(cache, [Cached(id)]))
  {
  }

  lemma {:induction false} TableLoadsAll(t: map<nat, seq<nat>>, order: seq<string>, code: Graph, ids: seq<string>,
      cache: seq<string>)
    requires IsTable(t, order, code) && (forall d :: d in ids ==> d in order) && forall x :: x in cache ==> x in order
    ensures Follows(order, LoadAll(t, Indices(order, ids), Indices(order, cache)), LoadAll(code, ids, cache))
    decreases |Waiting(code, cache)|, 1, |ids|
  {
    if ids != [] {
      var first := Load(code, ids[0], cache);
      var there := Load(t, IndexOf(order, ids[0]), Indices(order, cache));
      WaitingGrowsNot(code, cache, first.cache);
      TableLoads(t, order, code, ids[0], cache);
      assert Indices(order, ids)[1..] == Indices(order, ids[1..]);
      TableLoadsAll(t, order, code, ids[1..], first.cache);
      FollowsThen(order, there, LoadAll(t, Indices(order, ids[1..]), there.cache), first,
          LoadAll(code, ids[1..], first.cache));
    } else {
      assert RenamedAll(order, []) == [];
    }
  }

  /** Each module's initial code requires some of what its text requires. */
  ghost predicate RunsWithin(code: Graph, g: Graph) {
    code.Keys == g.Keys && forall id, d :: id in g && d in code[id] ==> d in g[id]
  }

  /**
   * The bundle loads as Node would: from the entry, the table enters, finds in its cache and leaves the same modules in
   * the same order as a cached require of the files, cycles included; it loads index 0.
   */
  lemma BundleLoadsTheSame(g: Graph, entry: string, code: Graph)
    requires Collect(g, entry).Some? && RunsWithin(code, g)
    ensures
      var order := Collect(g, entry).value;
      && Bundled(order, code) && IndexOf(order, entry) == 0
      && Load(Table(order, code), 0, []).trace == RenamedAll(order, Load(code, entry, []).trace)
  {
    var order := Collect(g, entry).value;
    VisitIs(g, entry, []);
    CollectsReachable(g, entry, entry);
    assert Bundled(order, code) by {
      forall i | 0 <= i < |order| ensures order[i] in code && forall d :: d in code[order[i]] ==> d in order {
        assert order[i] in order;
      }
    }
    TableLoads(Table(order, code), order, code, entry, []);
    assert Indices(order, []) == [];
  }

  lemma LoadAllStep(code: map<nat, seq<nat>>, ids: seq<nat>, j: nat, cache: seq<nat>)
    requires j < |ids|
    ensures
      var (first, all) := (Load(code, ids[j], cache), LoadAll(code, ids[j..], cache));
      var rest := LoadAll(code, ids[j + 1..], first.cache);
      all.cache == rest.cache && all.trace == first.trace + rest.trace
  {
    assert ids[j..][0] == ids[j] && ids[j..][1..] == ids[j + 1..];
  }

  lemma TracesGroup(a: seq<Event<nat>>, b: seq<Event<nat>>, c: seq<Event<nat>>)
    ensures a + (b + c) == (a + b) + c
  {
  }

  lemma Wrapped(a: seq<Event<nat>>, e: Event<nat>, b: seq<Event<nat>>, l: Event<nat>)
    ensures a + [e] + b + [l] == a + ([e] + b + [l])
  {
  }

  /** The emitted loader: a table of bodies and an array of what was loaded. */
  class Loader {
    const code: map<nat, seq<nat>>
    const cache: array<bool>
    var entered: seq<nat>
    var trace: seq<Event<nat>>

    ghost predicate Valid()
      reads this, cache
    {
      && (forall i :: i in code <==> 0 <= i < cache.Length)
      && (forall i :: 0 <= i < cache.Length ==> (cache[i] <==> i in entered))
      && (forall i :: i in entered ==> i < cache.Length)
    }

    constructor (code: map<nat, seq<nat>>, n: nat)
      requires forall i :: i in code <==> 0 <= i < n
      ensures Valid() && this.code == code && entered == [] && trace == [] && fresh(cache)
    {
      this.code := code;
      cache := new bool[n](i => false);
      entered, trace := [], [];
    }

    /** __load, for an index of the table. */
    method Run(i: nat)
      requires Valid() && i < cache.Length && forall k, d :: k in code && d in code[k] ==> d < cache.Length
      modifies this, cache
      ensures Valid()
      ensures entered == Load(code, i, old(entered)).cache && trace == old(trace) + Load(code, i, old(entered)).trace
      decreases |Waiting(code, entered)|
    {
      if cache[i] {
        trace := trace + [Cached(i)];
        return;
      }
      WaitingShrinks(code, entered, i);
      cache[i] := true;
      entered := entered + [i];
      trace := trace + [Enter(i)];
      ghost var (start, was) := (entered, trace);
      var body := code[i];
      var j := 0;
      while j < |body|
        invariant 0 <= j <= |body| && Valid() && start <= entered
        invariant LoadAll(code, body, start).cache == LoadAll(code, body[j..], entered).cache
        invariant was + LoadAll(code, body, start).trace == trace + LoadAll(code, body[j..], entered).trace
      {
        WaitingGrowsNot(code, start, entered);
        assert body[j] in code[i];
        LoadAllStep(code, body, j, entered);
        ghost var rest := LoadAll(code, body[j + 1..], Load(code, body[j], entered).cache).trace;
        TracesGroup(trace, Load(code, body[j], entered).trace, rest);
        Run(body[j]);
        j := j + 1;
      }
      assert trace + [] == trace && LoadAll(code, body[j..], entered).trace == [];
      Wrapped(old(trace), Enter(i), LoadAll(code, body, start).trace, Leave(i));
      trace := trace + [Leave(i)];
    }
  }
}
