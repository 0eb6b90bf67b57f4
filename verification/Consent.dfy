/**
 * The consent check (src/consent.js): cached answers, a generation counter, and checks that run concurrently with each
 * other and with revocations. A late answer never undoes a revocation, and a cached yes is never old.
 *
 * A key stands for the joined text of subject, purpose and options: KeyTextUnique says when that text names one key.
 * The mock is not part of this model.
 */
module Consent {
  import opened Prelude

  datatype Key = Key(subject: string, purpose: string, opts: string)

  datatype Entry = Entry(allowed: bool, expires: int)

  /** The cache in the order of insertion, and the count of changes seen. */
  datatype Cache = Cache(entries: map<Key, Entry>, order: seq<Key>, generation: nat)

  const CACHE_LIMIT := 10000
  const BATCH := 500

  // -- The text of a key ------------------------------------------------------

  const SEPARATOR := '\U{1}'

  /** keyOf, which joins a key's parts. */
  function KeyText(k: Key): string { k.subject + [SEPARATOR] + (k.purpose + [SEPARATOR] + k.opts) }

  /** optKey, which joins the parts of the options. */
  function OptsText(kind: string, client: string, feature: string): string {
    kind + ['\0'] + (client + ['\0'] + feature)
  }

  /** The index of the first c, and how many characters follow the last. */
  function FirstOf(s: string, c: char): nat { if s == "" || s[0] == c then 0 else 1 + FirstOf(s[1..], c) }

  function AfterLast(s: string, c: char): nat
    decreases |s|
  {
    if s == "" || s[|s| - 1] == c then 0 else 1 + AfterLast(s[..|s| - 1], c)
  }

  lemma {:induction false} FirstIs(a: string, s: string, c: char)
    requires c !in a
    ensures FirstOf(a + [c] + s, c) == |a|
    decreases |a|
  {
    if a == "" {
      assert a + [c] + s == [c] + s;
    } else {
      assert a + [c] + s == [a[0]] + (a[1..] + [c] + s);
      FirstIs(a[1..], s, c);
    }
  }

  lemma {:induction false} LastIs(a: string, s: string, c: char)
    requires c !in s
    ensures AfterLast(a + [c] + s, c) == |s|
    decreases |s|
  {
    if s == "" {
      assert a + [c] + s == a + [c];
    } else {
      var n := |s| - 1;
      assert a + [c] + s == (a + [c] + s[..n]) + [s[n]];
      LastIs(a, s[..n], c);
    }
  }

  lemma SameCut(a: string, b: string, s: string, t: string, c: char)
    requires |a| == |b| && a + [c] + s == b + [c] + t
    ensures a == b && s == t
  {
    var (x, y) := (a + [c] + s, b + [c] + t);
    assert a == x[..|a|] && b == y[..|b|] && s == x[|a| + 1..] && t == y[|b| + 1..];
  }

  lemma CutFirst(a: string, b: string, s: string, t: string, c: char)
    requires c !in a && c !in b && a + [c] + s == b + [c] + t
    ensures a == b && s == t
  {
    FirstIs(a, s, c);
    FirstIs(b, t, c);
    SameCut(a, b, s, t, c);
  }

  lemma CutLast(a: string, b: string, s: string, t: string, c: char)
    requires c !in s && c !in t && a + [c] + s == b + [c] + t
    ensures a == b && s == t
  {
    LastIs(a, s, c);
    LastIs(b, t, c);
    assert |a + [c] + s| == |b + [c] + t|;
    SameCut(a, b, s, t, c);
  }

  /**
   * The joined text names one key where purposes hold no separator, and either the subjects or the options hold none.
   */
  lemma KeyTextUnique(k: Key, l: Key)
    requires KeyText(k) == KeyText(l) && '\U{1}' !in k.purpose && '\U{1}' !in l.purpose
    requires ('\U{1}' !in k.subject && '\U{1}' !in l.subject) || ('\U{1}' !in k.opts && '\U{1}' !in l.opts)
    ensures k == l
  {
    if SEPARATOR !in k.subject && SEPARATOR !in l.subject {
      CutFirst(k.subject, l.subject, k.purpose + [SEPARATOR] + k.opts, l.purpose + [SEPARATOR] + l.opts, SEPARATOR);
      CutFirst(k.purpose, l.purpose, k.opts, l.opts, SEPARATOR);
    } else {
      var (x, y) := (k.subject + [SEPARATOR] + k.purpose, l.subject + [SEPARATOR] + l.purpose);
      assert KeyText(k) == x + [SEPARATOR] + k.opts && KeyText(l) == y + [SEPARATOR] + l.opts;
      CutLast(x, y, k.opts, l.opts, SEPARATOR);
      CutLast(k.subject, l.subject, k.purpose, l.purpose, SEPARATOR);
    }
  }

  /** The text of the options names them where kind and client hold no NUL. */
  lemma OptsTextUnique(kind: string, client: string, feature: string, kind': string, client': string, feature': string)
    requires OptsText(kind, client, feature) == OptsText(kind', client', feature')
    requires '\0' !in kind && '\0' !in client && '\0' !in kind' && '\0' !in client'
    ensures kind == kind' && client == client' && feature == feature'
  {
    CutFirst(kind, kind', client + ['\0'] + feature, client' + ['\0'] + feature', '\0');
    CutFirst(client, client', feature, feature', '\0');
  }

  /** A subject that holds a separator can share the text of another's key. */
  lemma KeyTextClashes(a: string, p: string, q: string, o: string)
    ensures
      var (k, l) := (Key(a + [SEPARATOR] + p, q, o), Key(a, p, q + [SEPARATOR] + o));
      KeyText(k) == KeyText(l) && k != l
  {
    var (k, l) := (Key(a + [SEPARATOR] + p, q, o), Key(a, p, q + [SEPARATOR] + o));
    assert KeyText(k) == a + [SEPARATOR] + p + [SEPARATOR] + q + [SEPARATOR] + o;
    assert KeyText(l) == a + [SEPARATOR] + p + [SEPARATOR] + q + [SEPARATOR] + o;
    assert |k.subject| != |l.subject|;
  }

  // -- The cache --------------------------------------------------------------

  function Keep(order: seq<Key>, keys: set<Key>): (r: seq<Key>)
    ensures forall i :: 0 <= i < |r| ==> r[i] in order && r[i] in keys
    ensures |r| <= |order|
    decreases |order|
  {
    if order == [] then [] else (if order[0] in keys then [order[0]] else []) + Keep(order[1..], keys)
  }

  /** The cache with some keys only. */
  function Restricted(c: Cache, keys: set<Key>): Cache {
    c.(entries := map k | k in c.entries && k in keys :: c.entries[k], order := Keep(c.order, keys))
  }

  /** fresh: an answer that has not expired; an expired one is dropped. */
  function Fresh(c: Cache, k: Key, now: int): (Cache, Option<bool>) {
    if k !in c.entries then (c, None)
    else if c.entries[k].expires <= now then (Restricted(c, c.entries.Keys - {k}), None)
    else (c, Some(c.entries[k].allowed))
  }

  function Live(c: Cache, now: int): set<Key> { set k | k in c.entries && c.entries[k].expires > now }

  /** Over the limit, expired answers go first, then the oldest. */
  function Bounded(c: Cache, now: int): Cache {
    if |c.order| <= CACHE_LIMIT then c
    else
      var live := Restricted(c, Live(c, now));
      if |live.order| <= CACHE_LIMIT then live
      else
        var cut := |live.order| - CACHE_LIMIT;
        live.(entries := live.entries - (set i | 0 <= i < cut :: live.order[i]), order := live.order[cut..])
  }

  /** remember: only an answer whose request started in the current generation. */
  function Remember(c: Cache, k: Key, allowed: bool, started: nat, now: int, ttl: int): Cache {
    if started != c.generation || ttl <= 0 then c
    else Bounded(c.(entries := c.entries[k := Entry(allowed, now + ttl)],
        order := if k in c.entries then c.order else c.order + [k]), now)
  }

  predicate Matches(k: Key, subject: Option<string>, purpose: Option<string>) {
    !Given(subject) || !Given(purpose) || (k.subject == subject.value && k.purpose == purpose.value)
  }

  /** onChange: a new generation, and the answers it concerns are dropped; all of them when it names nobody. */
  function Changed(c: Cache, subject: Option<string>, purpose: Option<string>): Cache {
    Restricted(c, set k | k in c.entries && !Matches(k, subject, purpose)).(generation := c.generation + 1)
  }

  /** A change concerns the answers for its subject and purpose, whatever their options; all of them without both. */
  ghost predicate Touches(k: Key, subject: Option<string>, purpose: Option<string>) {
    var named := subject.Some? && subject.value != "" && purpose.Some? && purpose.value != "";
    named ==> Some(k.subject) == subject && Some(k.purpose) == purpose
  }

  /** After a change exactly the answers it does not concern are left, as they were. */
  lemma ChangeDrops(c: Cache, subject: Option<string>, purpose: Option<string>, k: Key)
    ensures Matches(k, subject, purpose) <==> Touches(k, subject, purpose)
    ensures k in Changed(c, subject, purpose).entries <==> k in c.entries && !Touches(k, subject, purpose)
    ensures k in Changed(c, subject, purpose).entries ==> Changed(c, subject, purpose).entries[k] == c.entries[k]
    ensures Changed(c, subject, purpose).generation == c.generation + 1
  {
  }

  ghost predicate Valid(c: Cache) {
    && (forall i, j :: 0 <= i < j < |c.order| ==> c.order[i] != c.order[j])
    && (forall k :: k in c.entries <==> k in c.order)
    && |c.order| <= CACHE_LIMIT
  }

  class ConsentCache {
    var entries: map<Key, Entry>
    var order: seq<Key>
    var generation: nat
    const ttl: int

    ghost function Contents(): Cache
      reads this
    {
      Cache(entries, order, generation)
    }

    constructor (ttl: int)
      ensures Contents() == Cache(map[], [], 0) && this.ttl == ttl
    {
      this.ttl := ttl;
      entries, order, generation := map[], [], 0;
    }

    /** Map.delete. */
    method Delete(k: Key)
      modifies this`entries, this`order
      requires k in entries
      ensures Contents() == Restricted(old(Contents()), old(entries).Keys - {k})
    {
      entries, order :=
        (map x | x in entries && x in entries.Keys - {k} :: entries[x]), Keep(order, entries.Keys - {k});
    }

    method FreshAt(k: Key, now: int) returns (hit: Option<bool>)
      modifies this`entries, this`order
      ensures (Contents(), hit) == Fresh(old(Contents()), k, now)
    {
      if k !in entries { return None; }
      var e := entries[k];
      if e.expires <= now {
        Delete(k);
        return None;
      }
      return Some(e.allowed);
    }

    /** The deletions of an overfull cache. */
    method Trim(now: int)
      modifies this`entries, this`order
      ensures Contents() == Bounded(old(Contents()), now)
    {
      if |order| > CACHE_LIMIT {
        var live := set k | k in entries && entries[k].expires > now;
        entries, order := (map k | k in entries && k in live :: entries[k]), Keep(order, live);
        assert Contents() == Restricted(old(Contents()), Live(old(Contents()), now));
        if |order| > CACHE_LIMIT {
          var cut := |order| - CACHE_LIMIT;
          entries, order := entries - (set i | 0 <= i < cut :: order[i]), order[cut..];
        }
      }
    }

    method RememberAt(k: Key, allowed: bool, started: nat, now: int)
      modifies this`entries, this`order
      ensures Contents() == Remember(old(Contents()), k, allowed, started, now, ttl)
    {
      if started != generation || ttl <= 0 { return; }
      order := if k in entries then order else order + [k];
      entries := entries[k := Entry(allowed, now + ttl)];
      Trim(now);
    }

    method OnChange(subject: Option<string>, purpose: Option<string>)
      modifies this
      ensures Contents() == Changed(old(Contents()), subject, purpose)
    {
      generation := generation + 1;
      var stay := set k | k in entries && !Matches(k, subject, purpose);
      entries, order := (map k | k in entries && k in stay :: entries[k]), Keep(order, stay);
    }
  }

  // -- The cache stays bounded ------------------------------------------------

  lemma {:induction false} KeepIs(order: seq<Key>, keys: set<Key>)
    requires forall i, j :: 0 <= i < j < |order| ==> order[i] != order[j]
    ensures forall i, j :: 0 <= i < j < |Keep(order, keys)| ==> Keep(order, keys)[i] != Keep(order, keys)[j]
    ensures forall k :: k in Keep(order, keys) <==> k in order && k in keys
    decreases |order|
  {
    if order != [] {
      var rest := order[1..];
      assert order == [order[0]] + rest;
      assert forall i :: 0 <= i < |rest| ==> rest[i] == order[i + 1];
      KeepIs(rest, keys);
    }
  }

  lemma RestrictedKeeps(c: Cache, keys: set<Key>)
    requires forall i, j :: 0 <= i < j < |c.order| ==> c.order[i] != c.order[j]
    requires forall k :: k in c.entries <==> k in c.order
    ensures |Restricted(c, keys).order| <= |c.order|
    ensures forall i, j :: 0 <= i < j < |Restricted(c, keys).order| ==>
      Restricted(c, keys).order[i] != Restricted(c, keys).order[j]
    ensures forall k :: k in Restricted(c, keys).entries <==> k in Restricted(c, keys).order
  {
    KeepIs(c.order, keys);
  }

  lemma BoundedKeeps(c: Cache, now: int)
    requires forall i, j :: 0 <= i < j < |c.order| ==> c.order[i] != c.order[j]
    requires forall k :: k in c.entries <==> k in c.order
    ensures Valid(Bounded(c, now))
  {
    if |c.order| > CACHE_LIMIT {
      RestrictedKeeps(c, Live(c, now));
      var live := Restricted(c, Live(c, now));
      if |live.order| > CACHE_LIMIT { CutKeeps(live, |live.order| - CACHE_LIMIT); }
    }
  }

  lemma CutKeeps(c: Cache, cut: nat)
    requires cut <= |c.order| && forall i, j :: 0 <= i < j < |c.order| ==> c.order[i] != c.order[j]
    requires forall k :: k in c.entries <==> k in c.order
    ensures
      var dropped := set i | 0 <= i < cut :: c.order[i];
      forall k :: k in c.entries - dropped <==> k in c.order[cut..]
  {
    var dropped := set i | 0 <= i < cut :: c.order[i];
    forall k ensures k in c.entries - dropped <==> k in c.order[cut..] {
      if k in c.entries - dropped {
        var i :| 0 <= i < |c.order| && c.order[i] == k;
        assert c.order[cut..][i - cut] == k;
      }
      if k in c.order[cut..] {
        var i :| 0 <= i < |c.order[cut..]| && c.order[cut..][i] == k;
        assert c.order[cut + i] == k;
      }
    }
  }

  lemma RememberKeeps(c: Cache, k: Key, allowed: bool, started: nat, now: int, ttl: int)
    requires Valid(c)
    ensures Valid(Remember(c, k, allowed, started, now, ttl))
  {
    var order := if k in c.entries then c.order else c.order + [k];
    assert forall x :: x in order <==> x in c.order || x == k;
    BoundedKeeps(c.(entries := c.entries[k := Entry(allowed, now + ttl)], order := order), now);
  }

  lemma FreshKeeps(c: Cache, k: Key, now: int)
    requires Valid(c)
    ensures Valid(Fresh(c, k, now).0)
  {
    RestrictedKeeps(c, c.entries.Keys - {k});
  }

  lemma ChangedKeeps(c: Cache, subject: Option<string>, purpose: Option<string>)
    requires Valid(c)
    ensures Valid(Changed(c, subject, purpose))
  {
    RestrictedKeeps(c, set x | x in c.entries && !Matches(x, subject, purpose));
  }
}
