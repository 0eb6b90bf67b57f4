/**
 * The text canonical prints, in its own characters (sections 2 to 7 of RFC 8259): the words, the brackets and what lies
 * between them, and the escapes of JSON.stringify.
 */
module CanonicalText {
  import opened Prelude
  import opened C = Canonical

  /** The code units of a text of plain characters. */
  function Units(s: string): (t: Text)
    requires forall i :: 0 <= i < |s| ==> s[i] as int < 0x10000
    ensures |t| == |s| && forall i :: 0 <= i < |s| ==> t[i] as int == s[i] as int
  {
    seq(|s|, i requires 0 <= i < |s| => (s[i] as int) as Unit)
  }

  lemma WordsAre<N>(show: N -> Text)
    ensures Canonical(Null, show) == Units("null")
    ensures Canonical(Bool(true), show) == Units("true") && Canonical(Bool(false), show) == Units("false")
  {
  }

  /** Texts with a unit between each two of them. */
  function Joined(texts: seq<Text>, between: Unit): Text
    decreases |texts|
  {
    if texts == [] then [] else if |texts| == 1 then texts[0]
    else Joined(texts[..|texts| - 1], between) + [between] + texts[|texts| - 1]
  }

  lemma {:induction false} JoinedFrom(first: Text, rest: seq<Text>, between: Unit)
    requires rest != []
    ensures Joined([first] + rest, between) == first + [between] + Joined(rest, between)
    decreases |rest|
  {
    var all := [first] + rest;
    assert all[..|all| - 1] == [first] + rest[..|rest| - 1];
    if |rest| > 1 {
      JoinedFrom(first, rest[..|rest| - 1], between);
      var (a, b) := (Joined(rest[..|rest| - 1], between), rest[|rest| - 1]);
      assert (first + [between] + a) + [between] + b == first + [between] + (a + [between] + b);
    }
  }

  function Prints<N>(items: seq<Json<N>>, show: N -> Text): (r: seq<Text>)
    ensures |r| == |items| && forall i :: 0 <= i < |r| ==> r[i] == Canonical(items[i], show)
  {
    seq(|items|, i requires 0 <= i < |items| => Canonical(items[i], show))
  }

  function FieldPrints<N>(fields: seq<Field<N>>, show: N -> Text): (r: seq<Text>)
    ensures |r| == |fields|
    ensures forall i :: 0 <= i < |r| ==>
              r[i] == Quoted(fields[i].key) + Units(":") + Canonical(fields[i].value, show)
  {
    seq(|fields|, i requires 0 <= i < |fields| =>
      Quoted(fields[i].key) + Units(":") + Canonical(fields[i].value, show))
  }

  lemma PrintsFrom<N>(items: seq<Json<N>>, show: N -> Text)
    requires items != []
    ensures Prints(items, show) == [Canonical(items[0], show)] + Prints(items[1..], show)
  {
  }

  lemma MoreFrom<N>(parent: Json<N>, items: seq<Json<N>>, show: N -> Text)
    requires items != [] && forall i :: 0 <= i < |items| ==> items[i] < parent
    ensures MoreItems(parent, items, show)
            == [COMMA] + (Canonical(items[0], show) + MoreItems(parent, items[1..], show))
  {
    AppendGroups([COMMA], Canonical(items[0], show), MoreItems(parent, items[1..], show));
  }

  lemma {:induction false} ItemsAre<N>(parent: Json<N>, items: seq<Json<N>>, show: N -> Text)
    requires items != [] && forall i :: 0 <= i < |items| ==> items[i] < parent
    ensures Canonical(items[0], show) + MoreItems(parent, items[1..], show) == Joined(Prints(items, show), COMMA)
    decreases |items|
  {
    var (first, rest) := (Canonical(items[0], show), items[1..]);
    PrintsFrom(items, show);
    if rest == [] {
      assert Prints(items, show) == [first] && first + [] == first;
    } else {
      ItemsAre(parent, rest, show);
      JoinedFrom(first, Prints(rest, show), COMMA);
      MoreFrom(parent, rest, show);
      AppendGroups(first, [COMMA], Joined(Prints(rest, show), COMMA));
    }
  }

  /** An array is its items, in order, with commas between them, in square brackets. */
  lemma ArrayIs<N>(items: seq<Json<N>>, show: N -> Text)
    ensures Canonical(Arr(items), show) == Units("[") + Joined(Prints(items, show), Units(",")[0]) + Units("]")
  {
    if items != [] { ItemsAre(Arr(items), items, show); }
  }

  function FieldPrint<N>(f: Field<N>, show: N -> Text): Text {
    Quoted(f.key) + [COLON] + Canonical(f.value, show)
  }

  lemma FieldPrintsFrom<N>(fields: seq<Field<N>>, show: N -> Text)
    requires fields != []
    ensures FieldPrints(fields, show) == [FieldPrint(fields[0], show)] + FieldPrints(fields[1..], show)
  {
    assert Units(":") == [COLON];
  }

  lemma MoreFieldsFrom<N>(parent: Json<N>, fields: seq<Field<N>>, show: N -> Text)
    requires fields != [] && forall i :: 0 <= i < |fields| ==> fields[i].value < parent
    ensures MoreFields(parent, fields, show)
            == [COMMA] + (FieldPrint(fields[0], show) + MoreFields(parent, fields[1..], show))
  {
    var (f, more) := (fields[0], MoreFields(parent, fields[1..], show));
    assert [COMMA] + Quoted(f.key) + [COLON] + Canonical(f.value, show) + more
        == [COMMA] + ((Quoted(f.key) + [COLON] + Canonical(f.value, show)) + more);
  }

  lemma {:induction false} FieldsAre<N>(parent: Json<N>, fields: seq<Field<N>>, show: N -> Text)
    requires fields != [] && forall i :: 0 <= i < |fields| ==> fields[i].value < parent
    ensures FieldPrint(fields[0], show) + MoreFields(parent, fields[1..], show)
            == Joined(FieldPrints(fields, show), COMMA)
    decreases |fields|
  {
    var (first, rest) := (FieldPrint(fields[0], show), fields[1..]);
    FieldPrintsFrom(fields, show);
    if rest == [] {
      assert FieldPrints(fields, show) == [first] && first + [] == first;
    } else {
      FieldsAre(parent, rest, show);
      JoinedFrom(first, FieldPrints(rest, show), COMMA);
      MoreFieldsFrom(parent, rest, show);
      AppendGroups(first, [COMMA], Joined(FieldPrints(rest, show), COMMA));
    }
  }

  lemma ValuesInside<N>(fields: seq<Field<N>>)
    ensures forall i :: 0 <= i < |Sort(fields)| ==> Sort(fields)[i].value < Obj(fields)
  {
    forall i | 0 <= i < |Sort(fields)| ensures Sort(fields)[i].value < Obj(fields) {
      assert Sort(fields)[i] in fields;
    }
  }

  /** An object is its fields, by key in order of code units, as "key":value with commas between them, in braces. */
  lemma ObjectIs<N>(fields: seq<Field<N>>, show: N -> Text)
    ensures Canonical(Obj(fields), show)
            == Units("{") + Joined(FieldPrints(Sort(fields), show), Units(",")[0]) + Units("}")
  {
    ValuesInside(fields);
    FieldsText(Obj(fields), Sort(fields), show);
    ObjectOpens(fields, show);
    assert Units("{") == [123] && Units("}") == [125] && Units(",") == [COMMA];
  }

  lemma ObjectOpens<N>(fields: seq<Field<N>>, show: N -> Text)
    requires forall i :: 0 <= i < |Sort(fields)| ==> Sort(fields)[i].value < Obj(fields)
    ensures Canonical(Obj(fields), show) == [123] + Fields(Obj(fields), Sort(fields), show) + [125]
  {
  }

  lemma FieldsText<N>(parent: Json<N>, fields: seq<Field<N>>, show: N -> Text)
    requires forall i :: 0 <= i < |fields| ==> fields[i].value < parent
    ensures Fields(parent, fields, show) == Joined(FieldPrints(fields, show), COMMA)
  {
    if fields != [] { FieldsAre(parent, fields, show); }
  }

  /** a is the same as b up to i, where a ends first or has the smaller unit. */
  ghost predicate SmallerUnitAt(a: Text, b: Text, i: int) {
    0 <= i <= |a| && i < |b| && a[..i] == b[..i] && (i == |a| || a[i] < b[i])
  }

  lemma {:induction false} BeforeIff(a: Text, b: Text)
    ensures Before(a, b) <==> exists i :: SmallerUnitAt(a, b, i)
    decreases |a|
  {
    if a == [] {
      if b != [] { assert SmallerUnitAt(a, b, 0); }
    } else if b != [] && a[0] == b[0] {
      BeforeIff(a[1..], b[1..]);
      if Before(a, b) {
        var i :| SmallerUnitAt(a[1..], b[1..], i);
        assert a[..i + 1] == [a[0]] + a[1..][..i] && b[..i + 1] == [b[0]] + b[1..][..i];
        assert SmallerUnitAt(a, b, i + 1);
      }
      if exists i :: SmallerUnitAt(a, b, i) {
        var i :| SmallerUnitAt(a, b, i);
        assert a[1..][..i - 1] == a[..i][1..] && b[1..][..i - 1] == b[..i][1..];
        assert SmallerUnitAt(a[1..], b[1..], i - 1);
      }
    } else if b != [] {
      if a[0] < b[0] { assert SmallerUnitAt(a, b, 0); }
      forall i | SmallerUnitAt(a, b, i) ensures i == 0 {
      }
    }
  }

  // -- Strings ----------------------------------------------------------------

  /** What a hexadecimal digit stands for; the letters are small. */
  ghost predicate IsHex(u: Unit, n: int) {
    (48 <= u <= 57 && n == u as int - 48) || (97 <= u <= 102 && n == u as int - 87)
  }

  ghost predicate IsHex4(t: Text, n: int) {
    exists a, b, c, d :: HexDigits(t, a, b, c, d) && n == 4096 * a + 256 * b + 16 * c + d
  }

  ghost predicate HexDigits(t: Text, a: int, b: int, c: int, d: int) {
    |t| == 4 && IsHex(t[0], a) && IsHex(t[1], b) && IsHex(t[2], c) && IsHex(t[3], d)
  }

  lemma Hex4Is(u: Unit)
    ensures IsHex4(Hex4(u), u as int)
  {
    var n := u as int;
    var (a, b) := (n / 16, n / 16 / 16);
    assert HexDigits(Hex4(u), b / 16, b % 16, a % 16, n % 16);
  }

  /** Half of a pair of surrogates. */
  ghost predicate IsSurrogate(u: Unit) { 0xD800 <= u <= 0xDFFF }

  /**
   * A unit on its own: the two-character escapes, a hexadecimal escape for the other control characters and for half a
   * pair, and otherwise the unit itself.
   */
  lemma EscapeIs(u: Unit)
    ensures
      if u == 8 then Escape(u) == Units("\\b")
      else if u == 9 then Escape(u) == Units("\\t")
      else if u == 10 then Escape(u) == Units("\\n")
      else if u == 12 then Escape(u) == Units("\\f")
      else if u == 13 then Escape(u) == Units("\\r")
      else if u == 34 then Escape(u) == Units("\\\"")
      else if u == 92 then Escape(u) == Units("\\\\")
      else if u < 32 || IsSurrogate(u) then
        |Escape(u)| == 6 && Escape(u)[..2] == Units("\\u") && IsHex4(Escape(u)[2..], u as int)
      else Escape(u) == [u]
  {
    if Short(u).None? && (u < 32 || IsSurrogate(u)) {
      Hex4Is(u);
      assert ([BACKSLASH, 117] + Hex4(u))[2..] == Hex4(u);
    }
  }

  /** A string is its units in quotes, pairs as they are and all others escaped where they must be. */
  lemma QuotedIs(s: Text)
    ensures Quoted(s) == Units("\"") + Body(s) + Units("\"")
    ensures Body([]) == []
  {
    assert Units("\"") == [QUOTE];
  }

  /** Two units that are a pair of surrogates, high and low. */
  ghost predicate IsPair(s: Text) { |s| >= 2 && 0xD800 <= s[0] <= 0xDBFF && 0xDC00 <= s[1] <= 0xDFFF }

  lemma BodyIs(s: Text)
    requires s != []
    ensures IsPair(s) ==> Body(s) == s[..2] + Body(s[2..])
    ensures !IsPair(s) ==> Body(s) == Escape(s[0]) + Body(s[1..])
  {
    if IsPair(s) { assert s[..2] == [s[0], s[1]]; }
  }

  /** The units a number is printed with. */
  lemma NumericIff(u: Unit)
    ensures Numeric(u) <==> u in Units("0123456789-+.eE")
  {
    var t := Units("0123456789-+.eE");
    assert t[..10] == [48, 49, 50, 51, 52, 53, 54, 55, 56, 57] && t[10..] == [45, 43, 46, 101, 69];
    assert t == t[..10] + t[10..];
  }

  /** Numbers and strings are printed as JSON.stringify prints them. */
  lemma ScalarsAre<N>(n: N, s: Text, show: N -> Text)
    ensures Canonical(Num(n), show) == show(n) && Canonical(C.Json<N>.Str(s), show) == Quoted(s)
  {
  }
}
