/** Shared vocabulary: optional values and a few sequence functions used by several models. */
module Prelude {

  datatype Option<+T> = None | Some(value: T) {
    function GetOr(default: T): T {
      match this
      case Some(v) => v
      case None => default
    }
  }

  function Max(a: int, b: int): int { if a >= b then a else b }

  function Min(a: int, b: int): int { if a <= b then a else b }

  function RealMax(a: real, b: real): real { if a >= b then a else b }

  function RealMin(a: real, b: real): real { if a <= b then a else b }

  /** Within [0, 1]. */
  function Clamp(p: real): real { RealMax(0.0, RealMin(1.0, p)) }

  /** A string JavaScript counts as true. */
  predicate Given(s: Option<string>) { s.Some? && s.value != "" }

  /** What String.prototype.trim removes. */
  predicate IsSpace(c: char) {
    var n := c as int;
    9 <= n <= 13 || n == 0x20 || n == 0xA0 || n == 0x1680 || 0x2000 <= n <= 0x200A || n == 0x2028 || n == 0x2029
    || n == 0x202F || n == 0x205F || n == 0x3000 || n == 0xFEFF
  }

  function TrimStart(s: string): string { if s != "" && IsSpace(s[0]) then TrimStart(s[1..]) else s }

  function TrimEnd(s: string): string {
    if s != "" && IsSpace(s[|s| - 1]) then TrimEnd(s[..|s| - 1]) else s
  }

  function Trim(s: string): string { TrimEnd(TrimStart(s)) }

  ghost predicate AllSpace(s: string) { forall i :: 0 <= i < |s| ==> IsSpace(s[i]) }

  /** The text without the white space around it. */
  ghost predicate Trims(s: string, t: string, before: string, after: string) {
    && s == before + t + after && AllSpace(before) && AllSpace(after)
    && (t != "" ==> !IsSpace(t[0]) && !IsSpace(t[|t| - 1]))
  }

  lemma {:induction false} TrimStartIs(s: string) returns (before: string)
    ensures s == before + TrimStart(s) && AllSpace(before)
    ensures TrimStart(s) != "" ==> !IsSpace(TrimStart(s)[0])
    decreases |s|
  {
    before := "";
    if s != "" && IsSpace(s[0]) {
      var rest := TrimStartIs(s[1..]);
      before := [s[0]] + rest;
    }
  }

  lemma {:induction false} TrimEndIs(s: string) returns (after: string)
    ensures s == TrimEnd(s) + after && AllSpace(after)
    ensures TrimEnd(s) != "" ==> !IsSpace(TrimEnd(s)[|TrimEnd(s)| - 1]) && TrimEnd(s)[0] == s[0]
    decreases |s|
  {
    after := "";
    if s != "" && IsSpace(s[|s| - 1]) {
      var rest := TrimEndIs(s[..|s| - 1]);
      after := rest + [s[|s| - 1]];
    }
  }

  lemma TrimIs(s: string) returns (before: string, after: string)
    ensures Trims(s, Trim(s), before, after)
  {
    before := TrimStartIs(s);
    after := TrimEndIs(TrimStart(s));
  }

  /** JavaScript's < on strings. */
  predicate NamesBefore(a: string, b: string)
    decreases |a|
  {
    if a == "" then b != "" else if b == "" then false else a[0] < b[0] || (a[0] == b[0] && NamesBefore(a[1..], b[1..]))
  }

  lemma {:induction false} NamesOrdered(a: string, b: string, c: string)
    ensures !NamesBefore(a, a)
    ensures NamesBefore(a, b) && NamesBefore(b, c) ==> NamesBefore(a, c)
    decreases |a|
  {
    if a != "" { NamesOrdered(a[1..], if b == "" then "" else b[1..], if c == "" then "" else c[1..]); }
  }

  lemma {:induction false} NamesTotal(a: string, b: string)
    ensures a == b || NamesBefore(a, b) || NamesBefore(b, a)
    decreases |a|
  {
    if a != "" && b != "" && a[0] == b[0] {
      NamesTotal(a[1..], b[1..]);
      assert a == [a[0]] + a[1..] && b == [b[0]] + b[1..];
    }
  }

  /** a and b are the same up to i, where a ends first or has the smaller character. */
  ghost predicate SmallerAt(a: string, b: string, i: int) {
    && 0 <= i <= |a| && i < |b| && a[..i] == b[..i]
    && (i == |a| || a[i] < b[i])
  }

  /** It is the order of dictionaries, by code units. */
  lemma {:induction false} NamesBeforeIff(a: string, b: string)
    ensures NamesBefore(a, b) <==> exists i :: SmallerAt(a, b, i)
    decreases |a|
  {
    if a == "" {
      if b != "" { assert SmallerAt(a, b, 0); }
    } else if b != "" && a[0] == b[0] {
      NamesBeforeIff(a[1..], b[1..]);
      if NamesBefore(a, b) {
        var i :| SmallerAt(a[1..], b[1..], i);
        assert a[..i + 1] == [a[0]] + a[1..][..i] && b[..i + 1] == [b[0]] + b[1..][..i];
        assert SmallerAt(a, b, i + 1);
      }
      if exists i :: SmallerAt(a, b, i) {
        var i :| SmallerAt(a, b, i);
        assert a[1..][..i - 1] == a[..i][1..] && b[1..][..i - 1] == b[..i][1..];
        assert SmallerAt(a[1..], b[1..], i - 1);
      }
    } else if b != "" {
      if a[0] < b[0] { assert SmallerAt(a, b, 0); }
      forall i | SmallerAt(a, b, i) ensures i == 0 {
      }
    }
  }

  /** No element occurs twice. */
  ghost predicate Distinct<T>(s: seq<T>) {
    forall i, j :: 0 <= i < j < |s| ==> s[i] != s[j]
  }

  lemma TakeSnoc<T>(s: seq<T>, i: nat)
    requires i < |s|
    ensures s[..i + 1] == s[..i] + [s[i]]
  {
  }

  lemma AppendGroups<T>(a: seq<T>, b: seq<T>, c: seq<T>)
    ensures (a + b) + c == a + (b + c)
  {
  }

  /** The texts of `pieces`, joined. */
  function Concat<T>(pieces: seq<seq<T>>): seq<T> {
    if pieces == [] then [] else pieces[0] + Concat(pieces[1..])
  }

  lemma {:induction false} ConcatSnoc<T>(pieces: seq<seq<T>>, last: seq<T>)
    ensures Concat(pieces + [last]) == Concat(pieces) + last
  {
    if pieces == [] {
      assert pieces + [last] == [last];
      assert Concat([last]) == last + Concat([last][1..]);
    } else {
      assert (pieces + [last])[1..] == pieces[1..] + [last];
      ConcatSnoc(pieces[1..], last);
    }
  }

  // -- Decimal numbers --------------------------------------------------------

  function Digit(d: nat): (c: char)
    requires d < 10
    ensures '0' <= c <= '9' && c as int - '0' as int == d
  {
    '0' + d as char
  }

  predicate IsNumber(s: string) { forall i :: 0 <= i < |s| ==> '0' <= s[i] <= '9' }

  function Decimal(n: nat): (s: string)
    ensures s != [] && IsNumber(s)
  {
    if n < 10 then [Digit(n)] else Decimal(n / 10) + [Digit(n % 10)]
  }

  function Number(s: string): nat
    requires IsNumber(s)
  {
    if s == [] then 0
    else
      10 * Number(s[..|s| - 1]) + (s[|s| - 1] as int - '0' as int)
  }

  lemma {:induction false} DecimalRoundTrip(n: nat)
    ensures Number(Decimal(n)) == n
  {
    if n >= 10 {
      DecimalRoundTrip(n / 10);
      assert Decimal(n)[..|Decimal(n)| - 1] == Decimal(n / 10);
    } else {
      assert Decimal(n)[..0] == [];
    }
  }

  // -- Order and products of reals --------------------------------------------

  /** A product under a name, so that equal factors give equal terms. */
  function Times(x: real, y: real): real { x * y }

  lemma TimesOrder(x: real, y: real, k: real)
    requires x <= y && 0.0 <= k
    ensures Times(x, k) <= Times(y, k) && Times(k, x) <= Times(k, y)
  {
    assert (y - x) * k >= 0.0;
  }

  lemma TimesCancel(x: real, y: real, k: real)
    requires Times(x, k) <= Times(y, k) && 0.0 < k
    ensures x <= y
  {
    assert x > y ==> (x - y) * k > 0.0;
  }

  /** A factor in [0, 1] makes a product no larger. */
  lemma TimesShrink(x: real, k: real)
    requires 0.0 <= x <= 1.0 && 0.0 <= k
    ensures 0.0 <= Times(x, k) <= k && 0.0 <= Times(k, x) <= k
  {
    TimesOrder(0.0, x, k);
    TimesOrder(x, 1.0, k);
    TimesOne(k);
  }

  lemma TimesGroup(x: real, y: real, z: real)
    ensures Times(Times(x, y), z) == Times(x, Times(y, z))
  {
  }

  lemma TimesSum(x: real, y: real, k: real)
    ensures Times(x + y, k) == Times(x, k) + Times(y, k) && Times(x - y, k) == Times(x, k) - Times(y, k)
    ensures Times(k, x + y) == Times(k, x) + Times(k, y) && Times(k, x - y) == Times(k, x) - Times(k, y)
    ensures Times(x, k) == Times(k, x)
  {
  }

  lemma TimesOne(x: real)
    ensures Times(x, 1.0) == x && Times(1.0, x) == x && Times(x, 0.0) == 0.0 && Times(0.0, x) == 0.0
  {
  }

  lemma Quotient(a: real, b: real)
    requires 0.0 < b
    ensures Times(a / b, b) == a
  {
  }

  /** A quotient of numbers in order lies in [0, 1]. */
  lemma Proportion(x: real, y: real)
    requires 0.0 <= x <= y && 0.0 < y
    ensures 0.0 <= x / y <= 1.0
  {
    Quotient(x, y);
    TimesOne(y);
    TimesCancel(0.0, x / y, y);
    TimesCancel(x / y, 1.0, y);
  }
}
