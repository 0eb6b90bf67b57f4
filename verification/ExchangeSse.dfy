/**
 * The chat stream of the AI Exchange (src/exchange.js): parseSse reads the data lines of a text, sseChunks reads the
 * same stream piece by piece, cutting blocks at blank lines and normalising \r\n only inside each piece. JSON.parse is
 * any partial function from text.
 */
module ExchangeSse {
  import opened Prelude

  /** The chunk of one line, if it is a data line with a value that parses. */
  function LineChunk<J>(parse: string -> Option<J>, l: string): seq<J> {
    if |l| < 5 || l[..5] != "data:" then []
    else
      var data := Trim(l[5..]);
      if data == "" || data == "[DONE]" then []
      else match parse(data) case Some(v) => [v] case None => []
  }

  /** The chunks of the lines of s, when `cur` is what the first line has already. */
  function ReadFrom<J>(parse: string -> Option<J>, cur: string, s: string): seq<J>
    decreases |s|
  {
    if s == "" then LineChunk(parse, cur)
    else if s[0] == '\n' then LineChunk(parse, cur) + ReadFrom(parse, "", s[1..])
    else ReadFrom(parse, cur + [s[0]], s[1..])
  }

  /** parseSse as a function of the whole text. */
  function Read<J>(parse: string -> Option<J>, s: string): seq<J> { ReadFrom(parse, "", s) }

  function IndexOf(s: string, c: char): (i: nat)
    ensures i <= |s| && (i < |s| ==> s[i] == c)
    ensures forall j :: 0 <= j < i ==> s[j] != c
  {
    if s == "" || s[0] == c then 0 else 1 + IndexOf(s[1..], c)
  }

  lemma {:induction false} ReadLine<J>(parse: string -> Option<J>, cur: string, s: string, i: nat)
    requires i <= |s| && (forall j :: 0 <= j < i ==> s[j] != '\n') && (i < |s| ==> s[i] == '\n')
    ensures ReadFrom(parse, cur, s)
         == LineChunk(parse, cur + s[..i]) + (if i < |s| then ReadFrom(parse, "", s[i + 1..]) else [])
    decreases i
  {
    if i == 0 {
      assert cur + s[..0] == cur;
    } else {
      var tail := s[1..];
      ReadLine(parse, cur + [s[0]], tail, i - 1);
      assert (cur + [s[0]]) + tail[..i - 1] == cur + s[..i];
      assert i < |s| ==> tail[i - 1 + 1..] == s[i + 1..];
    }
  }

  /** Reading on after the first line. */
  lemma FirstLine<J>(parse: string -> Option<J>, rest: string, i: nat)
    requires i == IndexOf(rest, '\n')
    ensures Read(parse, rest) == LineChunk(parse, rest[..i]) + (if i < |rest| then Read(parse, rest[i + 1..]) else [])
  {
    ReadLine(parse, "", rest, i);
    assert "" + rest[..i] == rest[..i];
  }

  lemma Grouped<J>(a: seq<J>, b: seq<J>, c: seq<J>)
    ensures a + (b + c) == (a + b) + c
  {
  }

  /** parseSse: split at \n, and one chunk a data line. */
  method ParseSse<J>(parse: string -> Option<J>, block: string) returns (out: seq<J>)
    ensures out == Read(parse, block)
  {
    out := [];
    var rest := block;
    var more := true;
    while more
      invariant more ==> out + Read(parse, rest) == Read(parse, block)
      invariant !more ==> out == Read(parse, block)
      decreases more, |rest|
    {
      var i := IndexOf(rest, '\n');
      var line := rest[..i];
      FirstLine(parse, rest, i);
      Grouped(out, LineChunk(parse, line), if i < |rest| then Read(parse, rest[i + 1..]) else []);
      if |line| >= 5 && line[..5] == "data:" {
        var data := Trim(line[5..]);
        if data != "" && data != "[DONE]" && parse(data).Some? {
          out := out + [parse(data).value];
        }
      }
      if i < |rest| { rest := rest[i + 1..]; } else { more := false; }
    }
  }

  // -- Cutting at line ends ---------------------------------------------------

  ghost predicate AtLineStart(s: string) { s == "" || s[|s| - 1] == '\n' }

  /** Text that ends a line may be read on its own. */
  lemma {:induction false} ReadJoin<J>(parse: string -> Option<J>, cur: string, a: string, b: string)
    requires a != "" && a[|a| - 1] == '\n'
    ensures ReadFrom(parse, cur, a + b) == ReadFrom(parse, cur, a) + Read(parse, b)
    decreases |a|
  {
    assert (a + b)[1..] == a[1..] + b;
    if |a| == 1 {
      assert a[1..] == "" && "" + b == b;
      assert ReadFrom(parse, "", "") == [];
    } else if a[0] == '\n' {
      ReadJoin(parse, "", a[1..], b);
    } else {
      ReadJoin(parse, cur + [a[0]], a[1..], b);
    }
  }

  lemma ReadJoinAtStart<J>(parse: string -> Option<J>, a: string, b: string)
    requires AtLineStart(a)
    ensures Read(parse, a + b) == Read(parse, a) + Read(parse, b)
  {
    if a == "" { assert "" + b == b; } else { ReadJoin(parse, "", a, b); }
  }

  /** A line break at the end adds nothing. */
  lemma {:induction false} ReadTrailingBreak<J>(parse: string -> Option<J>, cur: string, a: string)
    ensures ReadFrom(parse, cur, a + "\n") == ReadFrom(parse, cur, a)
    decreases |a|
  {
    if a == "" {
      assert ("" + "\n")[1..] == "" && ReadFrom(parse, "", "") == [];
    } else {
      assert (a + "\n")[1..] == a[1..] + "\n";
      ReadTrailingBreak(parse, if a[0] == '\n' then "" else cur + [a[0]], a[1..]);
    }
  }

  // -- Normalising \r\n inside pieces -----------------------------------------

  /** piece.replace(/\r\n/g, '\n') */
  function Normalised(s: string): string {
    if s == "" then ""
    else if |s| >= 2 && s[0] == '\r' && s[1] == '\n' then "\n" + Normalised(s[2..])
    else [s[0]] + Normalised(s[1..])
  }

  function NormalisedAll(pieces: seq<string>): string {
    if pieces == [] then "" else NormalisedAll(pieces[..|pieces| - 1]) + Normalised(pieces[|pieces| - 1])
  }

  /** y is x with some \r left out that stand just before a \n. */
  ghost predicate Strips(x: string, y: string) {
    if x == "" then y == ""
    else
      (y != "" && x[0] == y[0] && Strips(x[1..], y[1..]))
      || (|x| >= 2 && x[0] == '\r' && x[1] == '\n' && Strips(x[1..], y))
  }

  lemma {:induction false} NormalisedStrips(s: string)
    ensures Strips(s, Normalised(s))
    decreases |s|
  {
    if s != "" {
      if |s| >= 2 && s[0] == '\r' && s[1] == '\n' {
        NormalisedStrips(s[2..]);
        assert s[1..][1..] == s[2..];
        assert Normalised(s)[1..] == Normalised(s[2..]);
      } else {
        NormalisedStrips(s[1..]);
        assert Normalised(s)[1..] == Normalised(s[1..]);
      }
    }
  }

  lemma {:induction false} StripsJoin(a: string, a': string, b: string, b': string)
    requires Strips(a, a') && Strips(b, b')
    ensures Strips(a + b, a' + b')
    decreases |a|
  {
    if a == "" {
      assert a + b == b && a' + b' == b';
    } else {
      assert (a + b)[1..] == a[1..] + b;
      if a' != "" && a[0] == a'[0] && Strips(a[1..], a'[1..]) {
        assert (a' + b')[1..] == a'[1..] + b';
        StripsJoin(a[1..], a'[1..], b, b');
      } else {
        StripsJoin(a[1..], a', b, b');
      }
    }
  }

  lemma {:induction false} PiecesStrip(pieces: seq<string>)
    ensures Strips(Concat(pieces), NormalisedAll(pieces))
  {
    if pieces != [] {
      var n := |pieces| - 1;
      PiecesStrip(pieces[..n]);
      NormalisedStrips(pieces[n]);
      assert pieces == pieces[..n] + [pieces[n]];
      ConcatSnoc(pieces[..n], pieces[n]);
      StripsJoin(Concat(pieces[..n]), NormalisedAll(pieces[..n]), pieces[n], Normalised(pieces[n]));
    }
  }

  lemma {:induction false} TrimStartCr(s: string)
    ensures TrimStart(s + "\r") == if TrimStart(s) == "" then "" else TrimStart(s) + "\r"
  {
    if s == "" {
      assert ("" + "\r")[1..] == "";
    } else if IsSpace(s[0]) {
      assert (s + "\r")[1..] == s[1..] + "\r";
      TrimStartCr(s[1..]);
    }
  }

  lemma TrimCr(s: string)
    ensures Trim(s + "\r") == Trim(s)
  {
    TrimStartCr(s);
    var t := TrimStart(s);
    if t != "" { assert (t + "\r")[..|t|] == t; }
  }

  /** A stray \r at the end of a line changes nothing: it is trimmed, and no prefix is made or broken by it. */
  lemma LineChunkCr<J>(parse: string -> Option<J>, l: string)
    ensures LineChunk(parse, l + "\r") == LineChunk(parse, l)
  {
    if |l| >= 5 {
      assert (l + "\r")[..5] == l[..5] && (l + "\r")[5..] == l[5..] + "\r";
      TrimCr(l[5..]);
    } else if |l| == 4 {
      assert (l + "\r")[4] == '\r';
    }
  }

  lemma {:induction false} StripsReadsSame<J>(parse: string -> Option<J>, cur: string, x: string, y: string)
    requires Strips(x, y)
    ensures ReadFrom(parse, cur, x) == ReadFrom(parse, cur, y)
    decreases |x|
  {
    if x != "" {
      if y != "" && x[0] == y[0] && Strips(x[1..], y[1..]) {
        StripsReadsSame(parse, if x[0] == '\n' then "" else cur + [x[0]], x[1..], y[1..]);
      } else {
        var z := x[1..];
        assert z[0] == '\n' && Strips(z, y);
        StripsReadsSame(parse, cur, z, y);
        LineChunkCr(parse, cur);
        assert cur + ['\r'] == cur + "\r";
      }
    }
  }

  // -- The stream -------------------------------------------------------------

  /** The index of the first "\n\n", or -1. */
  function BlankAt(s: string): (i: int)
    ensures -1 <= i && (i >= 0 ==> i + 2 <= |s| && s[i] == '\n' && s[i + 1] == '\n')
    ensures i < 0 ==> forall j :: 0 <= j < |s| - 1 ==> !(s[j] == '\n' && s[j + 1] == '\n')
  {
    if |s| < 2 then -1
    else if s[0] == '\n' && s[1] == '\n' then 0
    else
      var r := BlankAt(s[1..]);
      assert r < 0 ==> forall j :: 1 <= j < |s| - 1 ==> s[j] == s[1..][j - 1] && s[j + 1] == s[1..][j];
      if r < 0 then -1 else r + 1
  }

  /** A block up to its blank line, taken off the buffer, is read on its own. */
  lemma TakeBlock<J>(parse: string -> Option<J>, taken: string, buffer: string, cut: nat)
    requires AtLineStart(taken) && cut + 2 <= |buffer| && buffer[cut] == '\n' && buffer[cut + 1] == '\n'
    ensures taken + buffer == (taken + buffer[..cut + 2]) + buffer[cut + 2..] && AtLineStart(taken + buffer[..cut + 2])
    ensures Read(parse, taken + buffer[..cut + 2]) == Read(parse, taken) + Read(parse, buffer[..cut])
  {
    var raw := buffer[..cut];
    assert buffer[..cut + 2] == raw + "\n" + "\n";
    ReadTrailingBreak(parse, "", raw);
    ReadTrailingBreak(parse, "", raw + "\n");
    ReadJoinAtStart(parse, taken, raw + "\n" + "\n");
    assert buffer == buffer[..cut + 2] + buffer[cut + 2..];
  }

  lemma NextPiece(pieces: seq<string>, k: nat, taken: string, buffer: string)
    requires k < |pieces| && taken + buffer == NormalisedAll(pieces[..k])
    ensures taken + (buffer + Normalised(pieces[k])) == NormalisedAll(pieces[..k + 1])
  {
    assert pieces[..k + 1][..k] == pieces[..k];
    assert (taken + buffer) + Normalised(pieces[k]) == taken + (buffer + Normalised(pieces[k]));
  }

  /**
   * sseChunks over decoded pieces, the decoder's last flush being the last piece: for every way the text is cut, the
   * chunks are those parseSse reads in the whole text.
   */
  method SseChunks<J>(parse: string -> Option<J>, pieces: seq<string>) returns (out: seq<J>)
    ensures out == Read(parse, Concat(pieces))
  {
    out := [];
    var buffer := "";
    ghost var taken := "";
    var k := 0;
    while k < |pieces|
      invariant 0 <= k <= |pieces| && AtLineStart(taken) && out == Read(parse, taken)
      invariant taken + buffer == NormalisedAll(pieces[..k])
    {
      NextPiece(pieces, k, taken, buffer);
      buffer := buffer + Normalised(pieces[k]);
      k := k + 1;
      if k < |pieces| {
        var cut := BlankAt(buffer);
        while cut >= 0
          invariant cut == BlankAt(buffer) && AtLineStart(taken) && out == Read(parse, taken)
          invariant taken + buffer == NormalisedAll(pieces[..k])
          decreases |buffer|
        {
          var chunks := ParseSse(parse, buffer[..cut]);
          TakeBlock(parse, taken, buffer, cut);
          out := out + chunks;
          taken := taken + buffer[..cut + 2];
          buffer := buffer[cut + 2..];
          cut := BlankAt(buffer);
        }
      }
    }
    assert pieces[..k] == pieces;
    var chunks := ParseSse(parse, buffer);
    ReadJoinAtStart(parse, taken, buffer);
    out := out + chunks;
    PiecesStrip(pieces);
    StripsReadsSame(parse, "", Concat(pieces), NormalisedAll(pieces));
  }
}
