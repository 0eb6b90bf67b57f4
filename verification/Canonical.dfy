/**
 * canonical (src/placement.js): the text a plan's signature covers. Objects are printed with their keys sorted, so the
 * printer ignores key order; it is proved to tell any two other values apart, at any nesting.
 *
 * A JavaScript string is a sequence of UTF-16 code units; numbers are any type with an injective printer that uses
 * only the units a JSON number can have.
 */
module Canonical {
  import opened Prelude

  newtype Unit = x: int | 0 <= x < 0x10000

  type Text = seq<Unit>

  /** A JSON value as JavaScript holds it: an object is a list of fields in insertion order. */
  datatype Json<N> =
    | Null
    | Bool(b: bool)
    | Num(n: N)
    | Str(s: Text)
    | Arr(items: seq<Json<N>>)
    | Obj(fields: seq<Field<N>>)

  datatype Field<N> = Field(key: Text, value: Json<N>)

  /** Objects have each key once. */
  ghost predicate WellFormed<N>(v: Json<N>) {
    match v
    case Arr(items) => forall i :: 0 <= i < |items| ==> WellFormed(items[i])
    case Obj(fields) => DistinctKeys(fields) && forall i :: 0 <= i < |fields| ==> WellFormed(fields[i].value)
    case _ => true
  }

  ghost predicate DistinctKeys<N>(fields: seq<Field<N>>) {
    forall i, j :: 0 <= i < j < |fields| ==> fields[i].key != fields[j].key
  }

  // -- What a value means -----------------------------------------------------

  /** An object means a map: two values have one meaning exactly when they are equal up to key order, at any depth. */
  datatype Meaning<N> =
    | MNull
    | MBool(b: bool)
    | MNum(n: N)
    | MStr(s: Text)
    | MArr(items: seq<Meaning<N>>)
    | MObj(fields: map<Text, Meaning<N>>)

  ghost function MeaningOf<N>(v: Json<N>): Meaning<N> {
    match v
    case Null => MNull
    case Bool(b) => MBool(b)
    case Num(n) => MNum(n)
    case Str(s) => MStr(s)
    case Arr(items) => MArr(Meanings(items))
    case Obj(fields) => MObj(MeaningMap(fields))
  }

  ghost function Meanings<N>(items: seq<Json<N>>): (r: seq<Meaning<N>>)
    ensures |r| == |items|
  {
    if items == [] then [] else [MeaningOf(items[0])] + Meanings(items[1..])
  }

  ghost function MeaningMap<N>(fields: seq<Field<N>>): map<Text, Meaning<N>> {
    if fields == [] then map[]
    else
      var f := fields[0];
      MeaningMap(fields[1..])[f.key := MeaningOf(f.value)]
  }

  // -- Keys in order ----------------------------------------------------------

  /** The default order of sort(): by code units, a proper prefix first. */
  predicate Before(a: Text, b: Text) {
    if a == [] then b != []
    else if b == [] then false
    else a[0] < b[0] || (a[0] == b[0] && Before(a[1..], b[1..]))
  }

  lemma {:induction false} BeforeTotal(a: Text, b: Text)
    ensures a == b || Before(a, b) || Before(b, a)
    ensures !(Before(a, b) && Before(b, a)) && !Before(a, a)
    decreases |a|
  {
    if a != [] {
      if b != [] && a[0] == b[0] {
        BeforeTotal(a[1..], b[1..]);
        assert a == [a[0]] + a[1..] && b == [b[0]] + b[1..];
      }
      BeforeTotal(a[1..], a[1..]);
    }
  }

  lemma {:induction false} BeforeTransitive(a: Text, b: Text, c: Text)
    requires Before(a, b) && Before(b, c)
    ensures Before(a, c)
    decreases |a|
  {
    if a != [] && a[0] == b[0] && b[0] == c[0] { BeforeTransitive(a[1..], b[1..], c[1..]); }
  }

  ghost predicate Sorted<N>(fields: seq<Field<N>>) {
    forall i, j :: 0 <= i < j < |fields| ==> Before(fields[i].key, fields[j].key)
  }

  function Insert<N>(f: Field<N>, fields: seq<Field<N>>): seq<Field<N>> {
    if fields == [] || Before(f.key, fields[0].key) then [f] + fields
    else [fields[0]] + Insert(f, fields[1..])
  }

  function Sort<N>(fields: seq<Field<N>>): (r: seq<Field<N>>)
    ensures |r| == |fields|
    ensures forall i :: 0 <= i < |r| ==> r[i] in fields
  {
    if fields == [] then [] else
      var rest := Sort(fields[1..]);
      InsertMembers(fields[0], rest);
      Insert(fields[0], rest)
  }

  lemma {:induction false} InsertMembers<N>(f: Field<N>, fields: seq<Field<N>>)
    ensures |Insert(f, fields)| == |fields| + 1
    ensures forall i :: 0 <= i < |Insert(f, fields)| ==> Insert(f, fields)[i] == f || Insert(f, fields)[i] in fields
    ensures f in Insert(f, fields) && forall i :: 0 <= i < |fields| ==> fields[i] in Insert(f, fields)
    decreases |fields|
  {
    if fields != [] && !Before(f.key, fields[0].key) {
      InsertMembers(f, fields[1..]);
      assert fields == [fields[0]] + fields[1..];
    }
  }

  lemma {:induction false} SortMembers<N>(fields: seq<Field<N>>)
    ensures forall i :: 0 <= i < |fields| ==> fields[i] in Sort(fields)
    decreases |fields|
  {
    if fields != [] {
      var rest := Sort(fields[1..]);
      SortMembers(fields[1..]);
      InsertMembers(fields[0], rest);
      forall i | 0 <= i < |fields| ensures fields[i] in Sort(fields) {
        if i > 0 {
          assert fields[1..][i - 1] in rest;
          var k :| 0 <= k < |rest| && rest[k] == fields[i];
        }
      }
    }
  }

  lemma {:induction false} InsertSorted<N>(f: Field<N>, fields: seq<Field<N>>)
    requires Sorted(fields) && forall g :: g in fields ==> g.key != f.key
    ensures Sorted(Insert(f, fields))
    decreases |fields|
  {
    if fields != [] {
      if Before(f.key, fields[0].key) {
        forall j | 0 < j < |fields| ensures Before(f.key, fields[j].key) {
          BeforeTransitive(f.key, fields[0].key, fields[j].key);
        }
      } else {
        InsertSorted(f, fields[1..]);
        InsertMembers(f, fields[1..]);
        var r := Insert(f, fields[1..]);
        assert fields[0] in fields;
        BeforeTotal(f.key, fields[0].key);
        forall j | 0 <= j < |r| ensures Before(fields[0].key, r[j].key) {
          assert r[j] in r;
          if r[j] != f {
            var k :| 0 <= k < |fields[1..]| && fields[1..][k] == r[j];
            assert fields[k + 1] == r[j];
          }
        }
      }
    }
  }

  lemma {:induction false} SortSorted<N>(fields: seq<Field<N>>)
    requires DistinctKeys(fields)
    ensures Sorted(Sort(fields))
    decreases |fields|
  {
    if fields != [] {
      SortSorted(fields[1..]);
      SortMembers(fields[1..]);
      forall g | g in Sort(fields[1..]) ensures g.key != fields[0].key {
        var k :| 0 <= k < |fields[1..]| && fields[1..][k] == g;
        assert fields[k + 1] == g;
      }
      InsertSorted(fields[0], Sort(fields[1..]));
    }
  }

  // -- Strings ----------------------------------------------------------------

  const QUOTE: Unit := 34
  const BACKSLASH: Unit := 92
  const COMMA: Unit := 44
  const COLON: Unit := 58

  predicate High(u: Unit) { 0xD800 <= u <= 0xDBFF }

  predicate Low(u: Unit) { 0xDC00 <= u <= 0xDFFF }

  function HexDigit(n: int): (u: Unit)
    requires 0 <= n < 16
    ensures n < 10 ==> u as int == 48 + n
    ensures n >= 10 ==> u as int == 87 + n
  {
    if n < 10 then (48 + n) as Unit else (87 + n) as Unit
  }

  function Hex4(u: Unit): (r: Text)
    ensures |r| == 4
  {
    var n := u as int;
    var (a, b) := (n / 16, n / 16 / 16);
    [HexDigit(b / 16), HexDigit(b % 16), HexDigit(a % 16), HexDigit(n % 16)]
  }

  lemma Hex4Injective(u: Unit, v: Unit)
    requires Hex4(u) == Hex4(v)
    ensures u == v
  {
    var (m, n) := (u as int, v as int);
    var (a, b, c, d) := (m / 16, m / 16 / 16, n / 16, n / 16 / 16);
    assert Hex4(u)[0] == Hex4(v)[0] && Hex4(u)[1] == Hex4(v)[1] && Hex4(u)[2] == Hex4(v)[2] && Hex4(u)[3] == Hex4(v)[3];
    assert b / 16 == d / 16 && b % 16 == d % 16;
    assert b == d && a % 16 == c % 16;
    assert a == c && m % 16 == n % 16;
  }

  /** The short escapes: \b \t \n \f \r \" \\ by their second unit, or None. */
  function Short(u: Unit): Option<Unit> {
    if u == 8 then Some(98) else if u == 9 then Some(116) else if u == 10 then Some(110) else if u == 12 then Some(102)
    else if u == 13 then Some(114) else if u == QUOTE then Some(QUOTE) else if u == BACKSLASH then Some(BACKSLASH)
    else None
  }

  /** One unit that is not half of a pair: raw, a short escape, or \uXXXX for a control or a lone surrogate. */
  function Escape(u: Unit): (r: Text)
    ensures r != [] && r[0] != QUOTE
  {
    if Short(u).Some? then [BACKSLASH, Short(u).value]
    else if u < 32 || High(u) || Low(u) then [BACKSLASH, 117] + Hex4(u)
    else [u]
  }

  predicate Paired(s: Text) { |s| >= 2 && High(s[0]) && Low(s[1]) }

  function Body(s: Text): Text {
    if s == [] then [] else if Paired(s) then [s[0], s[1]] + Body(s[2..]) else Escape(s[0]) + Body(s[1..])
  }

  /** JSON.stringify of a string. */
  function Quoted(s: Text): Text { [QUOTE] + Body(s) + [QUOTE] }

  lemma EscapeUnique(u: Unit, v: Unit, s: Text, t: Text)
    requires Escape(u) + s == Escape(v) + t
    ensures u == v && s == t
  {
    var (a, b) := (Escape(u) + s, Escape(v) + t);
    assert a[0] == b[0] && (|Escape(u)| > 1 ==> a[1] == b[1] || |Escape(v)| == 1);
    if |Escape(u)| == 6 && |Escape(v)| == 6 {
      assert a[2..6] == Hex4(u) && b[2..6] == Hex4(v);
      Hex4Injective(u, v);
    }
    assert |Escape(u)| == |Escape(v)|;
    assert s == a[|Escape(u)|..] && t == b[|Escape(v)|..];
  }

  lemma Cut(a: Text, s: Text, b: Text, t: Text, k: nat)
    requires a + s == b + t && k <= |a| && k <= |b|
    ensures a[k..] + s == b[k..] + t && a[..k] == b[..k]
  {
    assert a[k..] + s == (a + s)[k..] && b[k..] + t == (b + t)[k..];
    assert a[..k] == (a + s)[..k] && b[..k] == (b + t)[..k];
  }

  /** Only a pair begins with a raw high surrogate, and only the end begins with a quote. */
  lemma FirstOfBody(a: Text, s: Text)
    requires s != [] && s[0] == QUOTE
    ensures (Body(a) + s)[0] == QUOTE <==> a == []
    ensures High((Body(a) + s)[0]) <==> Paired(a)
    ensures a != [] ==> Body(a) == (if Paired(a) then a[..2] + Body(a[2..]) else Escape(a[0]) + Body(a[1..]))
  {
    if a != [] && !Paired(a) { assert Escape(a[0])[0] == BACKSLASH || !High(Escape(a[0])[0]); }
  }

  /** Two printed strings that begin with a pair begin with the same pair. */
  lemma PairsUnique(a: Text, b: Text, s: Text, t: Text)
    requires s != [] && s[0] == QUOTE && t != [] && t[0] == QUOTE && Body(a) + s == Body(b) + t && Paired(a)
    ensures Paired(b) && a[..2] == b[..2] && Body(a[2..]) + s == Body(b[2..]) + t
  {
    FirstOfBody(a, s);
    FirstOfBody(b, t);
    var (x, y) := (Body(a[2..]), Body(b[2..]));
    Cut(a[..2] + x, s, b[..2] + y, t, 2);
    assert (a[..2] + x)[2..] == x && (b[..2] + y)[2..] == y;
    assert (a[..2] + x)[..2] == a[..2] && (b[..2] + y)[..2] == b[..2];
  }

  lemma SinglesUnique(a: Text, b: Text, s: Text, t: Text)
    requires s != [] && s[0] == QUOTE && t != [] && t[0] == QUOTE && Body(a) + s == Body(b) + t && a != [] && !Paired(a)
    ensures b != [] && !Paired(b) && a[0] == b[0] && Body(a[1..]) + s == Body(b[1..]) + t
  {
    FirstOfBody(a, s);
    FirstOfBody(b, t);
    var (x, y) := (Body(a[1..]), Body(b[1..]));
    Grouped(Escape(a[0]), x, s);
    Grouped(Escape(b[0]), y, t);
    EscapeUnique(a[0], b[0], x + s, y + t);
  }

  lemma Grouped(a: Text, b: Text, c: Text)
    ensures (a + b) + c == a + (b + c)
  {
  }

  /** A printed string ends at its closing quote, and only one string prints that way. */
  lemma {:induction false} BodyUnique(a: Text, b: Text, s: Text, t: Text)
    requires s != [] && s[0] == QUOTE && t != [] && t[0] == QUOTE && Body(a) + s == Body(b) + t
    ensures a == b && s == t
    decreases |a|
  {
    if a == [] {
      FirstOfBody(a, s);
      FirstOfBody(b, t);
      assert [] + s == s && [] + t == t;
    } else if Paired(a) {
      PairsUnique(a, b, s, t);
      BodyUnique(a[2..], b[2..], s, t);
      assert a == a[..2] + a[2..] && b == b[..2] + b[2..];
    } else {
      SinglesUnique(a, b, s, t);
      BodyUnique(a[1..], b[1..], s, t);
      assert a == [a[0]] + a[1..] && b == [b[0]] + b[1..];
    }
  }

  lemma QuotedUnique(a: Text, b: Text, s: Text, t: Text)
    requires Quoted(a) + s == Quoted(b) + t
    ensures a == b && s == t
  {
    var (x, y) := ([QUOTE] + s, [QUOTE] + t);
    QuotedParts(a, s);
    QuotedParts(b, t);
    BodyUnique(a, b, x, y);
    assert s == x[1..] && t == y[1..];
  }

  lemma QuotedParts(a: Text, s: Text)
    ensures (Quoted(a) + s)[1..] == Body(a) + ([QUOTE] + s)
  {
  }

  // -- The printer ------------------------------------------------------------

  /** canonical: array items in order, object keys sorted, everything else as JSON.stringify prints it. */
  function Canonical<N>(v: Json<N>, show: N -> Text): Text
    decreases v, 1, 0
  {
    match v
    case Null => [110, 117, 108, 108]
    case Bool(b) => if b then [116, 114, 117, 101] else [102, 97, 108, 115, 101]
    case Num(n) => show(n)
    case Str(s) => Quoted(s)
    case Arr(items) => [91] + Items(v, items, show) + [93]
    case Obj(fields) => [123] + Fields(v, Sort(fields), show) + [125]
  }

  /** The printed items joined by commas. */
  function Items<N>(parent: Json<N>, items: seq<Json<N>>, show: N -> Text): Text
    requires forall i :: 0 <= i < |items| ==> items[i] < parent
    decreases parent, 0, |items| + 1
  {
    if items == [] then [] else Canonical(items[0], show) + MoreItems(parent, items[1..], show)
  }

  function MoreItems<N>(parent: Json<N>, items: seq<Json<N>>, show: N -> Text): Text
    requires forall i :: 0 <= i < |items| ==> items[i] < parent
    decreases parent, 0, |items|
  {
    if items == [] then [] else [COMMA] + Canonical(items[0], show) + MoreItems(parent, items[1..], show)
  }

  function Fields<N>(parent: Json<N>, fields: seq<Field<N>>, show: N -> Text): Text
    requires forall i :: 0 <= i < |fields| ==> fields[i].value < parent
    decreases parent, 0, |fields| + 1
  {
    if fields == [] then []
    else Quoted(fields[0].key) + [COLON] + Canonical(fields[0].value, show) + MoreFields(parent, fields[1..], show)
  }

  function MoreFields<N>(parent: Json<N>, fields: seq<Field<N>>, show: N -> Text): Text
    requires forall i :: 0 <= i < |fields| ==> fields[i].value < parent
    decreases parent, 0, |fields|
  {
    if fields == [] then []
    else
      [COMMA] + Quoted(fields[0].key) + [COLON] + Canonical(fields[0].value, show)
      + MoreFields(parent, fields[1..], show)
  }

  /** The units of a JSON number. */
  ghost predicate Numeric(u: Unit) { 48 <= u <= 57 || u == 45 || u == 43 || u == 46 || u == 101 || u == 69 }

  ghost predicate NumberText(s: Text) { s != [] && (48 <= s[0] <= 57 || s[0] == 45)
      && forall i :: 0 <= i < |s| ==> Numeric(s[i]) }

  /** A printer for numbers: digits, sign, point and exponent only, and no two numbers alike. */
  ghost predicate GoodShow<N(!new)>(show: N -> Text) {
    && (forall n :: NumberText(show(n)))
    && (forall m, n :: show(m) == show(n) ==> m == n)
  }

  /** What can follow a printed value: nothing, or the end of an item. */
  predicate Follows(s: Text) { s == [] || s[0] == COMMA || s[0] == 93 || s[0] == 125 }

  lemma Starts<N(!new)>(v: Json<N>, show: N -> Text)
    requires GoodShow(show)
    ensures Canonical(v, show) != [] && !Follows(Canonical(v, show))
  {
    if v.Num? { assert NumberText(show(v.n)); }
  }

  // -- Two values print alike only if they mean the same ----------------------

  /** A number text cannot run into what follows another. */
  lemma NoLonger(a: Text, s: Text, b: Text, t: Text)
    requires NumberText(b) && Follows(s) && a + s == b + t
    ensures |b| <= |a|
  {
    assert forall k :: 0 <= k < |b| ==> (b + t)[k] == b[k] && Numeric((b + t)[k]);
    assert s != [] ==> (a + s)[|a|] == s[0] && !Numeric((a + s)[|a|]);
  }

  lemma NumbersUnique<N(!new)>(m: N, n: N, show: N -> Text, s: Text, t: Text)
    requires GoodShow(show) && Follows(s) && Follows(t) && show(m) + s == show(n) + t
    ensures m == n && s == t
  {
    var (a, b, x) := (show(m), show(n), show(m) + s);
    assert NumberText(a) && NumberText(b);
    NoLonger(a, s, b, t);
    NoLonger(b, t, a, s);
    assert a == x[..|a|] && b == (show(n) + t)[..|a|];
    assert s == x[|a|..] && t == (show(n) + t)[|a|..];
  }

  /** The first unit tells what kind of value was printed. */
  lemma SameKind<N(!new)>(v: Json<N>, w: Json<N>, show: N -> Text)
    requires GoodShow(show) && Canonical(v, show) != [] && Canonical(w, show) != []
    requires Canonical(v, show)[0] == Canonical(w, show)[0]
    ensures v.Null? == w.Null? && v.Bool? == w.Bool? && (v.Bool? ==> v.b == w.b) && v.Num? == w.Num?
    ensures v.Str? == w.Str? && v.Arr? == w.Arr? && v.Obj? == w.Obj?
  {
    assert v.Num? ==> NumberText(show(v.n));
    assert w.Num? ==> NumberText(show(w.n));
  }

  lemma {:induction false} Unambiguous<N(!new)>(v: Json<N>, w: Json<N>, show: N -> Text, s: Text, t: Text)
    requires GoodShow(show) && WellFormed(v) && WellFormed(w) && Follows(s) && Follows(t)
    requires Canonical(v, show) + s == Canonical(w, show) + t
    ensures MeaningOf(v) == MeaningOf(w) && s == t
    decreases v, 1, 0
  {
    var (x, y) := (Canonical(v, show), Canonical(w, show));
    Starts(v, show);
    Starts(w, show);
    assert x[0] == (x + s)[0] && y[0] == (y + t)[0];
    SameKind(v, w, show);
    match v {
      case Null => Cut(x, s, y, t, 4); assert x[4..] + s == s && y[4..] + t == t;
      case Bool(b) =>
        Cut(x, s, y, t, |x|);
        assert x[|x|..] + s == s && y[|x|..] + t == t;
      case Num(n) => NumbersUnique(n, w.n, show, s, t);
      case Str(a) => QuotedUnique(a, w.s, s, t);
      case Arr(items) =>
        Brackets(Items(v, items, show), s);
        Brackets(Items(w, w.items, show), t);
        ItemsUnique(v, w, items, w.items, show, s, t);
      case Obj(fields) =>
        ObjectsUnique(v, w, show, s, t);
    }
  }

  lemma {:induction false} ObjectsUnique<N(!new)>(v: Json<N>, w: Json<N>, show: N -> Text, s: Text, t: Text)
    requires GoodShow(show) && WellFormed(v) && WellFormed(w) && v.Obj? && w.Obj?
    requires Canonical(v, show) + s == Canonical(w, show) + t
    ensures MeaningMap(v.fields) == MeaningMap(w.fields) && s == t
    decreases v, 0, 2 * |v.fields| + 3
  {
    var (a, b) := (Sort(v.fields), Sort(w.fields));
    SortWellFormed(v.fields);
    SortWellFormed(w.fields);
    Braces(Fields(v, a, show), s);
    Braces(Fields(w, b, show), t);
    FieldsUnique(v, w, a, b, show, s, t);
    SortKeepsMap(v.fields);
    SortKeepsMap(w.fields);
  }

  lemma Brackets(x: Text, s: Text)
    ensures ([91] + x + [93] + s)[1..] == x + [93] + s
  {
  }

  lemma Braces(x: Text, s: Text)
    ensures ([123] + x + [125] + s)[1..] == x + [125] + s
  {
  }

  lemma RegroupItems(c: Text, m: Text, s: Text)
    ensures (c + m) + [93] + s == c + (m + [93] + s)
    ensures ([COMMA] + c + m) + [93] + s == [COMMA] + (c + (m + [93] + s))
  {
  }

  lemma {:induction false} ItemsUnique<N(!new)>(
      v: Json<N>, w: Json<N>, a: seq<Json<N>>, b: seq<Json<N>>, show: N -> Text, s: Text, t: Text)
    requires GoodShow(show)
    requires forall i :: 0 <= i < |a| ==> a[i] < v && WellFormed(a[i])
    requires forall i :: 0 <= i < |b| ==> b[i] < w && WellFormed(b[i])
    requires Items(v, a, show) + [93] + s == Items(w, b, show) + [93] + t
    ensures Meanings(a) == Meanings(b) && s == t
    decreases v, 0, 2 * |a| + 1
  {
    var (x, y) := (Items(v, a, show) + [93] + s, Items(w, b, show) + [93] + t);
    if a != [] { Starts(a[0], show); }
    if b != [] { Starts(b[0], show); }
    assert x[0] == y[0];
    if a == [] || b == [] {
      assert s == x[1..] && t == y[1..];
    } else {
      RegroupItems(Canonical(a[0], show), MoreItems(v, a[1..], show), s);
      RegroupItems(Canonical(b[0], show), MoreItems(w, b[1..], show), t);
      OneItem(v, w, a, b, show, s, t);
    }
  }

  lemma {:induction false} MoreItemsUnique<N(!new)>(
      v: Json<N>, w: Json<N>, a: seq<Json<N>>, b: seq<Json<N>>, show: N -> Text, s: Text, t: Text)
    requires GoodShow(show)
    requires forall i :: 0 <= i < |a| ==> a[i] < v && WellFormed(a[i])
    requires forall i :: 0 <= i < |b| ==> b[i] < w && WellFormed(b[i])
    requires MoreItems(v, a, show) + [93] + s == MoreItems(w, b, show) + [93] + t
    ensures Meanings(a) == Meanings(b) && s == t
    decreases v, 0, 2 * |a| + 1
  {
    var (x, y) := (MoreItems(v, a, show) + [93] + s, MoreItems(w, b, show) + [93] + t);
    assert x[0] == y[0];
    if a == [] || b == [] {
      assert s == x[1..] && t == y[1..];
    } else {
      RegroupItems(Canonical(a[0], show), MoreItems(v, a[1..], show), s);
      RegroupItems(Canonical(b[0], show), MoreItems(w, b[1..], show), t);
      assert x[1..] == y[1..];
      OneItem(v, w, a, b, show, s, t);
    }
  }

  /** One printed item, and the items that follow it, are read back in one way. */
  lemma {:induction false} OneItem<N(!new)>(
      v: Json<N>, w: Json<N>, a: seq<Json<N>>, b: seq<Json<N>>, show: N -> Text, s: Text, t: Text)
    requires GoodShow(show) && a != [] && b != []
    requires forall i :: 0 <= i < |a| ==> a[i] < v && WellFormed(a[i])
    requires forall i :: 0 <= i < |b| ==> b[i] < w && WellFormed(b[i])
    requires Canonical(a[0], show) + (MoreItems(v, a[1..], show) + [93] + s)
          == Canonical(b[0], show) + (MoreItems(w, b[1..], show) + [93] + t)
    ensures Meanings(a) == Meanings(b) && s == t
    decreases v, 0, 2 * |a|
  {
    var (p, q) := (MoreItems(v, a[1..], show) + [93] + s, MoreItems(w, b[1..], show) + [93] + t);
    Unambiguous(a[0], b[0], show, p, q);
    MoreItemsUnique(v, w, a[1..], b[1..], show, s, t);
  }

  lemma FieldCut(k: Text, c: Text, p: Text, l: Text, d: Text, q: Text)
    requires Quoted(k) + [COLON] + c + p == Quoted(l) + [COLON] + d + q
    ensures k == l && c + p == d + q
  {
    var (m, n) := ([COLON] + c + p, [COLON] + d + q);
    assert Quoted(k) + [COLON] + c + p == Quoted(k) + m && Quoted(l) + [COLON] + d + q == Quoted(l) + n;
    QuotedUnique(k, l, m, n);
    assert m[1..] == c + p && n[1..] == d + q;
  }

  lemma Regroup(k: Text, c: Text, m: Text, s: Text)
    ensures (k + [COLON] + c + m) + [125] + s == k + [COLON] + c + (m + [125] + s)
    ensures ([COMMA] + k + [COLON] + c + m) + [125] + s == [COMMA] + (k + [COLON] + c + (m + [125] + s))
  {
  }

  lemma {:induction false} FieldsUnique<N(!new)>(
      v: Json<N>, w: Json<N>, a: seq<Field<N>>, b: seq<Field<N>>, show: N -> Text, s: Text, t: Text)
    requires GoodShow(show)
    requires forall i :: 0 <= i < |a| ==> a[i].value < v && WellFormed(a[i].value)
    requires forall i :: 0 <= i < |b| ==> b[i].value < w && WellFormed(b[i].value)
    requires Fields(v, a, show) + [125] + s == Fields(w, b, show) + [125] + t
    ensures MeaningMap(a) == MeaningMap(b) && s == t
    decreases v, 0, 2 * |a| + 1
  {
    var (x, y) := (Fields(v, a, show) + [125] + s, Fields(w, b, show) + [125] + t);
    assert x[0] == y[0];
    if a == [] || b == [] {
      assert s == x[1..] && t == y[1..];
    } else {
      Regroup(Quoted(a[0].key), Canonical(a[0].value, show), MoreFields(v, a[1..], show), s);
      Regroup(Quoted(b[0].key), Canonical(b[0].value, show), MoreFields(w, b[1..], show), t);
      OneField(v, w, a, b, show, s, t);
    }
  }

  lemma {:induction false} MoreFieldsUnique<N(!new)>(
      v: Json<N>, w: Json<N>, a: seq<Field<N>>, b: seq<Field<N>>, show: N -> Text, s: Text, t: Text)
    requires GoodShow(show)
    requires forall i :: 0 <= i < |a| ==> a[i].value < v && WellFormed(a[i].value)
    requires forall i :: 0 <= i < |b| ==> b[i].value < w && WellFormed(b[i].value)
    requires MoreFields(v, a, show) + [125] + s == MoreFields(w, b, show) + [125] + t
    ensures MeaningMap(a) == MeaningMap(b) && s == t
    decreases v, 0, 2 * |a| + 1
  {
    var (x, y) := (MoreFields(v, a, show) + [125] + s, MoreFields(w, b, show) + [125] + t);
    assert x[0] == y[0];
    if a == [] || b == [] {
      assert s == x[1..] && t == y[1..];
    } else {
      Regroup(Quoted(a[0].key), Canonical(a[0].value, show), MoreFields(v, a[1..], show), s);
      Regroup(Quoted(b[0].key), Canonical(b[0].value, show), MoreFields(w, b[1..], show), t);
      assert x[1..] == y[1..];
      OneField(v, w, a, b, show, s, t);
    }
  }

  /** One printed field, and the fields that follow it, are read back in one way. */
  lemma {:induction false} OneField<N(!new)>(
      v: Json<N>, w: Json<N>, a: seq<Field<N>>, b: seq<Field<N>>, show: N -> Text, s: Text, t: Text)
    requires GoodShow(show) && a != [] && b != []
    requires forall i :: 0 <= i < |a| ==> a[i].value < v && WellFormed(a[i].value)
    requires forall i :: 0 <= i < |b| ==> b[i].value < w && WellFormed(b[i].value)
    requires Quoted(a[0].key) + [COLON] + Canonical(a[0].value, show) + (MoreFields(v, a[1..], show) + [125] + s)
          == Quoted(b[0].key) + [COLON] + Canonical(b[0].value, show) + (MoreFields(w, b[1..], show) + [125] + t)
    ensures MeaningMap(a) == MeaningMap(b) && s == t
    decreases v, 0, 2 * |a|
  {
    var (p, q) := (MoreFields(v, a[1..], show) + [125] + s, MoreFields(w, b[1..], show) + [125] + t);
    FieldCut(a[0].key, Canonical(a[0].value, show), p, b[0].key, Canonical(b[0].value, show), q);
    Unambiguous(a[0].value, b[0].value, show, p, q);
    MoreFieldsUnique(v, w, a[1..], b[1..], show, s, t);
  }

  lemma SortWellFormed<N>(fields: seq<Field<N>>)
    requires forall i :: 0 <= i < |fields| ==> WellFormed(fields[i].value)
    ensures forall i :: 0 <= i < |Sort(fields)| ==> WellFormed(Sort(fields)[i].value)
  {
    forall i | 0 <= i < |Sort(fields)| ensures WellFormed(Sort(fields)[i].value) {
      var k :| 0 <= k < |fields| && fields[k] == Sort(fields)[i];
    }
  }

  // -- Sorting changes no meaning ---------------------------------------------

  lemma {:induction false} InsertMap<N>(f: Field<N>, fields: seq<Field<N>>)
    requires forall i :: 0 <= i < |fields| ==> fields[i].key != f.key
    ensures MeaningMap(Insert(f, fields)) == MeaningMap(fields)[f.key := MeaningOf(f.value)]
    decreases |fields|
  {
    if fields == [] || Before(f.key, fields[0].key) {
      assert ([f] + fields)[1..] == fields;
    } else {
      InsertMap(f, fields[1..]);
      assert ([fields[0]] + Insert(f, fields[1..]))[1..] == Insert(f, fields[1..]);
    }
  }

  lemma {:induction false} SortKeepsMap<N>(fields: seq<Field<N>>)
    requires DistinctKeys(fields)
    ensures MeaningMap(Sort(fields)) == MeaningMap(fields)
    decreases |fields|
  {
    if fields != [] {
      var rest := Sort(fields[1..]);
      SortKeepsMap(fields[1..]);
      forall i | 0 <= i < |rest| ensures rest[i].key != fields[0].key {
        var k :| 0 <= k < |fields[1..]| && fields[1..][k] == rest[i];
        assert fields[k + 1] == rest[i];
      }
      InsertMap(fields[0], rest);
    }
  }

  // -- Two values that mean the same print alike ------------------------------

  lemma {:induction false} MapHas<N>(fields: seq<Field<N>>)
    ensures forall i :: 0 <= i < |fields| ==> fields[i].key in MeaningMap(fields)
    ensures MeaningMap(fields) == map[] <==> fields == []
    ensures forall k :: k in MeaningMap(fields) ==> exists i :: 0 <= i < |fields| && fields[i].key == k
    decreases |fields|
  {
    if fields != [] {
      MapHas(fields[1..]);
      forall k | k in MeaningMap(fields) ensures exists i :: 0 <= i < |fields| && fields[i].key == k {
        if k == fields[0].key {
          assert fields[0].key == k;
        } else {
          var rest := fields[1..];
          assert k in MeaningMap(rest);
          var j :| 0 <= j < |rest| && rest[j].key == k;
          assert fields[j + 1].key == k;
        }
      }
    }
  }

  /** Two sorted lists of fields that make one map have the same keys in the same places, with the same meanings. */
  lemma {:induction false} SortedOnce<N>(a: seq<Field<N>>, b: seq<Field<N>>)
    requires Sorted(a) && Sorted(b) && MeaningMap(a) == MeaningMap(b)
    ensures |a| == |b|
    ensures forall i :: 0 <= i < |a| ==> a[i].key == b[i].key && MeaningOf(a[i].value) == MeaningOf(b[i].value)
    decreases |a|
  {
    MapHas(a);
    MapHas(b);
    if a != [] && b != [] {
      SameHead(a, b);
      TailMap(a);
      TailMap(b);
      SortedOnce(a[1..], b[1..]);
      forall k | 0 <= k < |a| ensures a[k].key == b[k].key && MeaningOf(a[k].value) == MeaningOf(b[k].value) {
        if k > 0 { assert a[k] == a[1..][k - 1] && b[k] == b[1..][k - 1]; }
      }
    }
  }

  lemma SameHead<N>(a: seq<Field<N>>, b: seq<Field<N>>)
    requires a != [] && b != [] && Sorted(a) && Sorted(b) && MeaningMap(a) == MeaningMap(b)
    ensures a[0].key == b[0].key
  {
    MapHas(a);
    MapHas(b);
    var j :| 0 <= j < |b| && b[j].key == a[0].key;
    var i :| 0 <= i < |a| && a[i].key == b[0].key;
    BeforeTotal(a[0].key, b[0].key);
  }

  lemma TailMap<N>(a: seq<Field<N>>)
    requires a != [] && Sorted(a)
    ensures MeaningMap(a[1..]) == MeaningMap(a) - {a[0].key} && MeaningMap(a)[a[0].key] == MeaningOf(a[0].value)
  {
    var (f, m) := (a[0], MeaningMap(a[1..]));
    assert f.key !in m by {
      MapHas(a[1..]);
      BeforeTotal(f.key, f.key);
      assert forall i :: 0 <= i < |a[1..]| ==> a[1..][i] == a[i + 1] && Before(f.key, a[i + 1].key);
    }
    assert m[f.key := MeaningOf(f.value)] - {f.key} == m;
  }

  lemma {:induction false} MeaningsAt<N>(items: seq<Json<N>>, i: int)
    requires 0 <= i < |items|
    ensures Meanings(items)[i] == MeaningOf(items[i])
    decreases |items|
  {
    if i > 0 { MeaningsAt(items[1..], i - 1); }
  }

  lemma {:induction false} SamePrint<N>(v: Json<N>, w: Json<N>, show: N -> Text)
    requires WellFormed(v) && WellFormed(w) && MeaningOf(v) == MeaningOf(w)
    ensures Canonical(v, show) == Canonical(w, show)
    decreases v, 2, 0
  {
    if v.Arr? {
      SameArrays(v, w, show);
    } else if v.Obj? {
      SameObjects(v, w, show);
    }
  }

  lemma {:induction false} SameArrays<N>(v: Json<N>, w: Json<N>, show: N -> Text)
    requires WellFormed(v) && WellFormed(w) && MeaningOf(v) == MeaningOf(w) && v.Arr?
    ensures Canonical(v, show) == Canonical(w, show)
    decreases v, 1, 0
  {
    forall i | 0 <= i < |v.items| ensures MeaningOf(v.items[i]) == MeaningOf(w.items[i]) {
      MeaningsAt(v.items, i);
      MeaningsAt(w.items, i);
    }
    assert |v.items| == |w.items| by { assert |Meanings(v.items)| == |v.items| && |Meanings(w.items)| == |w.items|; }
    if v.items != [] {
      SamePrint(v.items[0], w.items[0], show);
      SameItems(v, w, v.items[1..], w.items[1..], show);
    }
  }

  lemma {:induction false} SameObjects<N>(v: Json<N>, w: Json<N>, show: N -> Text)
    requires WellFormed(v) && WellFormed(w) && MeaningOf(v) == MeaningOf(w) && v.Obj?
    ensures Canonical(v, show) == Canonical(w, show)
    decreases v, 1, 0
  {
    var (a, b) := (Sort(v.fields), Sort(w.fields));
    SortSorted(v.fields);
    SortSorted(w.fields);
    SortKeepsMap(v.fields);
    SortKeepsMap(w.fields);
    SortWellFormed(v.fields);
    SortWellFormed(w.fields);
    SortedOnce(a, b);
    if a != [] {
      SamePrint(a[0].value, b[0].value, show);
      SameFields(v, w, a[1..], b[1..], show);
    }
  }

  lemma {:induction false} SameItems<N>(v: Json<N>, w: Json<N>, a: seq<Json<N>>, b: seq<Json<N>>, show: N -> Text)
    requires |a| == |b|
    requires forall i :: 0 <= i < |a| ==> a[i] < v && WellFormed(a[i])
    requires forall i :: 0 <= i < |b| ==> b[i] < w && WellFormed(b[i])
    requires forall i :: 0 <= i < |a| ==> MeaningOf(a[i]) == MeaningOf(b[i])
    ensures MoreItems(v, a, show) == MoreItems(w, b, show)
    decreases v, 0, |a|
  {
    if a != [] {
      SamePrint(a[0], b[0], show);
      SameItems(v, w, a[1..], b[1..], show);
    }
  }

  lemma {:induction false} SameFields<N>(v: Json<N>, w: Json<N>, a: seq<Field<N>>, b: seq<Field<N>>, show: N -> Text)
    requires |a| == |b|
    requires forall i :: 0 <= i < |a| ==> a[i].value < v && WellFormed(a[i].value)
    requires forall i :: 0 <= i < |b| ==> b[i].value < w && WellFormed(b[i].value)
    requires forall i :: 0 <= i < |a| ==> a[i].key == b[i].key && MeaningOf(a[i].value) == MeaningOf(b[i].value)
    ensures MoreFields(v, a, show) == MoreFields(w, b, show)
    decreases v, 0, |a|
  {
    if a != [] {
      SamePrint(a[0].value, b[0].value, show);
      SameFields(v, w, a[1..], b[1..], show);
    }
  }

  /** What a signature over the printed text binds: exactly one body, up to the order of its keys at any depth. */
  lemma BindsOneBody<N(!new)>(v: Json<N>, w: Json<N>, show: N -> Text)
    requires GoodShow(show) && WellFormed(v) && WellFormed(w)
    ensures Canonical(v, show) == Canonical(w, show) <==> MeaningOf(v) == MeaningOf(w)
  {
    if Canonical(v, show) == Canonical(w, show) { Unambiguous(v, w, show, [], []); }
    if MeaningOf(v) == MeaningOf(w) { SamePrint(v, w, show); }
  }
}
