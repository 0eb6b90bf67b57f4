/**
 * parseSSE (src/realtime.js) against section 9.2.6 of the WHATWG HTML Living Standard: the lines, and the events the
 * standard dispatches for them.
 */
module SseStandard {
  import opened Prelude
  import opened Sse

  /** The whole lines of a text, as the parser takes them off its buffer. */
  function WholeLines(buf: string): seq<string>
    decreases |buf|
  {
    match NextLine(buf)
    case None => []
    case Some((l, rest)) => [l] + WholeLines(rest)
  }

  lemma {:induction false} DrainReadsLines(b: Block, buf: string)
    ensures Drain(State(buf, b)).1 == ReadLines(b, WholeLines(buf)).1
    decreases |buf|
  {
    match NextLine(buf)
    case None =>
    case Some((l, rest)) =>
      assert ([l] + WholeLines(rest))[1..] == WholeLines(rest);
      DrainReadsLines(Line(b, l).0, rest);
  }

  /** The standard's lines, one character at a time: \r, \n and \r\n each end a line, wherever the text stops. */
  function StdSplit(cur: string, s: string, afterCr: bool): seq<string>
    decreases |s|
  {
    if s == "" then []
    else if s[0] == '\n' && afterCr then StdSplit("", s[1..], false)
    else if IsBreak(s[0]) then [cur] + StdSplit("", s[1..], s[0] == '\r')
    else StdSplit(cur + [s[0]], s[1..], false)
  }

  lemma {:induction false} SplitToBreak(cur: string, s: string, afterCr: bool, i: nat)
    requires i <= |s| && (forall j :: 0 <= j < i ==> !IsBreak(s[j])) && (afterCr ==> i > 0)
    ensures StdSplit(cur, s, afterCr) == StdSplit(cur + s[..i], s[i..], false)
    decreases |s|
  {
    if i > 0 {
      SplitToBreak(cur + [s[0]], s[1..], false, i - 1);
      assert (cur + [s[0]]) + s[1..][..i - 1] == cur + s[..i];
      assert s[1..][i - 1..] == s[i..];
    } else {
      assert cur + s[..0] == cur && s[0..] == s;
    }
  }

  /** After a \r that ended a line, a following \n changes nothing. */
  lemma SkipLf(s: string)
    requires s == "" || s[0] != '\n'
    ensures StdSplit("", s, true) == StdSplit("", s, false)
  {
  }

  /**
   * The parser's lines are the standard's, except that a \r at the very end of the text is held back: one line less.
   */
  lemma {:induction false} LinesAgree(text: string)
    ensures if text == "" || text[|text| - 1] != '\r' then StdSplit("", text, false) == WholeLines(text)
            else exists held :: StdSplit("", text, false) == WholeLines(text) + [held]
    decreases |text|
  {
    var i := FirstBreak(text);
    SplitToBreak("", text, false, i);
    assert "" + text[..i] == text[..i];
    var (line, tail) := (text[..i], text[i..]);
    if i == |text| {
    } else if NextLine(text).None? {
      assert tail == "\r" && tail[1..] == "";
      assert StdSplit(line, tail, false) == [line] + StdSplit("", tail[1..], true);
      assert StdSplit("", text, false) == WholeLines(text) + [line];
    } else {
      var rest := NextLine(text).value.1;
      LinesAgree(rest);
      FirstLineAgrees(text);
      assert WholeLines(text) == [line] + WholeLines(rest);
      if text[|text| - 1] == '\r' {
        assert rest[|rest| - 1] == text[|text| - 1];
        var held :| StdSplit("", rest, false) == WholeLines(rest) + [held];
        assert [line] + (WholeLines(rest) + [held]) == WholeLines(text) + [held];
      } else {
        assert rest != "" ==> rest[|rest| - 1] == text[|text| - 1];
      }
    }
  }

  /** The first whole line is the standard's first line, and the rest is read alike. */
  lemma FirstLineAgrees(text: string)
    requires NextLine(text).Some?
    ensures StdSplit("", text, false) == [NextLine(text).value.0] + StdSplit("", NextLine(text).value.1, false)
  {
    var i := FirstBreak(text);
    var (line, tail, rest) := (text[..i], text[i..], NextLine(text).value.1);
    SplitToBreak("", text, false, i);
    assert "" + text[..i] == text[..i];
    assert tail[0] == text[i] && tail[1..] == text[i + 1..];
    if text[i] == '\r' && text[i + 1] == '\n' {
      assert tail[1..][1..] == rest;
    } else if text[i] == '\r' {
      SkipLf(rest);
    }
  }

  /** The standard's parser state: its data buffer keeps a \n after each line, and its last event id stays. */
  datatype StdState = StdState(data: string, ty: string, lastId: string)

  datatype StdEvent = StdEvent(ty: string, data: string, lastId: string)

  function StdLine(s: StdState, l: string): (StdState, Option<StdEvent>) {
    if l == "" then
      (StdState("", "", s.lastId),
       if s.data == "" then None
       else Some(StdEvent(if s.ty == "" then "message" else s.ty, s.data[..|s.data| - 1], s.lastId)))
    else if l[0] == ':' then (s, None)
    else
      var (field, value) := (FieldOf(l), ValueOf(l));
      if field == "event" then (s.(ty := value), None)
      else if field == "data" then (s.(data := s.data + value + "\n"), None)
      else if field == "id" && '\0' !in value then (s.(lastId := value), None)
      else (s, None)
  }

  function StdRead(s: StdState, lines: seq<string>): seq<StdEvent>
    decreases |lines|
  {
    if lines == [] then []
    else
      var (t, e) := StdLine(s, lines[0]);
      (if e.Some? then [e.value] else []) + StdRead(t, lines[1..])
  }

  /** The finished blocks that have data: the ones the standard dispatches. */
  function WithData(bs: seq<Block>): seq<Block>
    decreases |bs|
  {
    if bs == [] then [] else (if bs[0].data == [] then [] else [bs[0]]) + WithData(bs[1..])
  }

  /** The same type and data, and the same id where the block has one of its own. */
  predicate Agrees(b: Block, e: StdEvent) {
    Emitted(b).event == e.ty && Emitted(b).data == e.data && (b.id.Some? ==> b.id.value == e.lastId)
  }

  predicate AllAgree(bs: seq<Block>, es: seq<StdEvent>) {
    |bs| == |es| && forall i :: 0 <= i < |bs| ==> Agrees(bs[i], es[i])
  }

  function Terminated(ls: seq<string>): string {
    if ls == [] then "" else Terminated(ls[..|ls| - 1]) + ls[|ls| - 1] + "\n"
  }

  lemma {:induction false} TerminatedIsJoin(ls: seq<string>)
    requires ls != []
    ensures Terminated(ls) == Join(ls) + "\n"
  {
    if |ls| == 1 {
      assert ls[..0] == [] && "" + ls[0] == ls[0];
    } else {
      var n := |ls| - 1;
      TerminatedIsJoin(ls[..n]);
      JoinSnoc(ls[..n], ls[n]);
      assert ls == ls[..n] + [ls[n]];
    }
  }

  lemma {:induction false} JoinSnoc(ls: seq<string>, l: string)
    requires ls != []
    ensures Join(ls + [l]) == Join(ls) + "\n" + l
  {
    if |ls| > 1 {
      assert (ls + [l])[1..] == ls[1..] + [l];
      JoinSnoc(ls[1..], l);
    } else {
      assert (ls + [l])[1..] == [l];
    }
  }

  ghost predicate StdRelated(b: Block, s: StdState) {
    s.data == Terminated(b.data) && s.ty == b.ty && (b.id.Some? ==> s.lastId == b.id.value)
  }

  lemma LineAgrees(b: Block, s: StdState, l: string)
    requires StdRelated(b, s)
    ensures StdRelated(Line(b, l).0, StdLine(s, l).0)
    ensures StdLine(s, l).1.Some? <==> Line(b, l).1.Dispatch? && b.data != []
    ensures StdLine(s, l).1.Some? ==> Line(b, l).1 == Dispatch(b) && Agrees(b, StdLine(s, l).1.value)
  {
    if l == "" {
      if b.data != [] {
        TerminatedIsJoin(b.data);
        assert (Join(b.data) + "\n")[..|Join(b.data)|] == Join(b.data);
      }
    } else if l[0] != ':' && FieldOf(l) == "data" {
      var ls := b.data + [ValueOf(l)];
      assert ls[..|ls| - 1] == b.data;
    }
  }

  lemma {:induction false} ReadAgrees(b: Block, s: StdState, lines: seq<string>)
    requires StdRelated(b, s)
    ensures AllAgree(WithData(ReadLines(b, lines).1.blocks), StdRead(s, lines))
    decreases |lines|
  {
    if lines != [] {
      LineAgrees(b, s, lines[0]);
      var (c, e) := Line(b, lines[0]);
      ReadAgrees(c, StdLine(s, lines[0]).0, lines[1..]);
      var rest := ReadLines(c, lines[1..]).1.blocks;
      if e.Dispatch? {
        assert ([e.block] + rest)[1..] == rest;
      } else {
        assert [] + rest == rest;
      }
    }
  }

  predicate IsDataLine(l: string) { l != "" && l[0] != ':' && FieldOf(l) == "data" }

  ghost predicate NoneBlank(lines: seq<string>) { forall i :: 0 <= i < |lines| ==> lines[i] != "" }

  /** A data line comes after the last blank line. */
  ghost predicate DataOpen(lines: seq<string>) {
    exists i :: 0 <= i < |lines| && IsDataLine(lines[i]) && NoneBlank(lines[i..])
  }

  /** The text ends in a \r that ends a blank line, and the lines before it leave an event with data open. */
  ghost predicate HeldBack(text: string) {
    && text != "" && text[|text| - 1] == '\r'
    && var lines := StdSplit("", text, false);
       lines != [] && lines[|lines| - 1] == "" && DataOpen(lines[..|lines| - 1])
  }

  lemma DataOpenNext(l: string, rest: seq<string>)
    ensures DataOpen([l] + rest) <==> DataOpen(rest) || (IsDataLine(l) && NoneBlank(rest))
  {
    var all := [l] + rest;
    if DataOpen(all) {
      var i :| 0 <= i < |all| && IsDataLine(all[i]) && NoneBlank(all[i..]);
      if i == 0 {
        assert forall j :: 0 <= j < |rest| ==> rest[j] == all[0..][j + 1];
      } else {
        assert all[i..] == rest[i - 1..] && all[i] == rest[i - 1];
      }
    }
    if DataOpen(rest) {
      var i :| 0 <= i < |rest| && IsDataLine(rest[i]) && NoneBlank(rest[i..]);
      assert all[i + 1..] == rest[i..] && all[i + 1] == rest[i];
    }
    if IsDataLine(l) && NoneBlank(rest) {
      assert all[0..] == all && all[0] == l;
    }
  }

  /** The block left open by some lines has data exactly when a data line comes after the last blank one. */
  lemma {:induction false} DataOpenIs(b: Block, lines: seq<string>)
    ensures ReadLines(b, lines).0.data != [] <==> DataOpen(lines) || (b.data != [] && NoneBlank(lines))
    decreases |lines|
  {
    if lines != [] {
      var (l, rest) := (lines[0], lines[1..]);
      var c := Line(b, l).0;
      assert lines == [l] + rest;
      DataOpenIs(c, rest);
      DataOpenNext(l, rest);
      assert c.data != [] <==> IsDataLine(l) || (b.data != [] && l != "");
      assert NoneBlank(lines) <==> l != "" && NoneBlank(rest) by {
        assert forall j :: 0 <= j < |rest| ==> rest[j] == lines[j + 1];
      }
    }
  }

  /** The parser then holds the blank line's \r, with that event in its block. */
  lemma HeldBackIs(text: string, s: State)
    requires s == Drain(State(text, EMPTY)).0
    ensures HeldBack(text) <==> s.buf == "\r" && s.block.data != []
  {
    var lines := WholeLines(text);
    HeldLine(EMPTY, text);
    if text != "" && text[|text| - 1] == '\r' {
      LeftEnds(EMPTY, text);
      var held := s.buf[..|s.buf| - 1];
      assert s.buf == "\r" <==> held == "";
      assert (lines + [held])[..|lines|] == lines;
      DataOpenIs(EMPTY, lines);
    }
  }

  const STD_START: StdState := StdState("", "", "")

  function StdEvents(text: string): seq<StdEvent> { StdRead(STD_START, StdSplit("", text, false)) }

  /** What is left in the buffer after the whole lines: a line without its end, or the held line and its \r. */
  lemma {:induction false} HeldLine(b: Block, text: string)
    ensures
      var s := Drain(State(text, b)).0;
      && s.block == ReadLines(b, WholeLines(text)).0
      && if text == "" || text[|text| - 1] != '\r' then StdSplit("", text, false) == WholeLines(text) && s.buf != "\r"
         else s.buf != "" && StdSplit("", text, false) == WholeLines(text) + [s.buf[..|s.buf| - 1]]
    decreases |text|
  {
    LinesAgree(text);
    match NextLine(text) {
      case None =>
        if text != "" && text[|text| - 1] == '\r' {
          SplitToBreak("", text, false, |text| - 1);
          assert "" + text[..|text| - 1] == text[..|text| - 1] && text[|text| - 1..] == "\r";
          assert StdSplit(text[..|text| - 1], "\r", false) == [text[..|text| - 1]] + StdSplit("", "\r"[1..], true);
        }
      case Some((l, rest)) =>
        HeldLine(Line(b, l).0, rest);
        FirstLineAgrees(text);
        RestEnds(text);
        assert ([l] + WholeLines(rest))[1..] == WholeLines(rest);
    }
  }

  /** What follows the first whole line ends as the text does. */
  lemma RestEnds(text: string)
    requires NextLine(text).Some?
    ensures
      var rest := NextLine(text).value.1;
      (rest != "" ==> rest[|rest| - 1] == text[|text| - 1]) && (rest == "" ==> text[|text| - 1] != '\r')
  {
  }

  lemma {:induction false} LeftEnds(b: Block, text: string)
    requires text != "" && text[|text| - 1] == '\r'
    ensures var buf := Drain(State(text, b)).0.buf; buf != "" && buf[|buf| - 1] == '\r'
    decreases |text|
  {
    match NextLine(text)
    case None =>
    case Some((l, rest)) =>
      RestEnds(text);
      LeftEnds(Line(b, l).0, rest);
  }

  lemma {:induction false} StdReadSnoc(b: Block, s: StdState, lines: seq<string>, last: string)
    requires StdRelated(b, s)
    ensures
      var c := ReadLines(b, lines).0;
      exists t ::
        && StdRelated(c, t)
        && StdRead(s, lines + [last]) == StdRead(s, lines) + (if StdLine(t, last).1.Some? then [StdLine(t, last).1.value] else [])
    decreases |lines|
  {
    if lines == [] {
      assert [] + [last] == [last] && [last][1..] == [];
      assert StdRead(s, [last]) == [] + (if StdLine(s, last).1.Some? then [StdLine(s, last).1.value] else []);
    } else {
      LineAgrees(b, s, lines[0]);
      assert (lines + [last])[1..] == lines[1..] + [last];
      var (c, s') := (Line(b, lines[0]).0, StdLine(s, lines[0]).0);
      StdReadSnoc(c, s', lines[1..], last);
    }
  }

  /**
   * Against the standard, for every text and however it is cut: leaving out the events that have a type and no data,
   * which the standard does not dispatch, the parser yields the standard's events, with the standard's last event id
   * wherever the event carries an id; all of them exactly when the text does not end in a \r that would dispatch one
   * more, and otherwise all but that last one, which is the block still open.
   */
  lemma AgreesWithStandard(chunks: seq<string>)
    ensures
      var (text, ours) := (Concat(chunks), WithData(FeedAll(START, chunks).1.blocks));
      var std := StdEvents(text);
      && (AllAgree(ours, std) <==> !HeldBack(text))
      && (HeldBack(text) ==> |std| > 0 && AllAgree(ours, std[..|std| - 1]) && Agrees(Parse(text).0.block, std[|std| - 1]))
  {
    var text := Concat(chunks);
    ChunkInvariance(chunks);
    FeedStart(text);
    HeldBackIs(text, Parse(text).0);
    TextAgrees(text, Parse(text).0, WithData(Parse(text).1.blocks), StdEvents(text));
  }

  /**
   * Where nothing is held back, all the parser's events are the standard's exactly when every one of them has data.
   */
  lemma AllAgreeIff(chunks: seq<string>)
    requires !HeldBack(Concat(chunks))
    ensures
      var all := FeedAll(START, chunks).1.blocks;
      AllAgree(all, StdEvents(Concat(chunks))) <==> forall i :: 0 <= i < |all| ==> all[i].data != []
  {
    AgreesWithStandard(chunks);
    WithDataAll(FeedAll(START, chunks).1.blocks);
  }

  lemma {:induction false} WithDataAll(bs: seq<Block>)
    ensures |WithData(bs)| <= |bs|
    ensures |WithData(bs)| == |bs| <==> forall i :: 0 <= i < |bs| ==> bs[i].data != []
    ensures |WithData(bs)| == |bs| ==> WithData(bs) == bs
    decreases |bs|
  {
    if bs != [] {
      var rest := bs[1..];
      WithDataAll(rest);
      assert bs == [bs[0]] + rest;
      assert forall i :: 0 <= i < |rest| ==> rest[i] == bs[i + 1];
    }
  }

  lemma TextAgrees(text: string, s: State, ours: seq<Block>, std: seq<StdEvent>)
    requires s == Drain(State(text, EMPTY)).0 && ours == WithData(Drain(State(text, EMPTY)).1.blocks)
    requires std == StdEvents(text)
    ensures
      var held := s.buf == "\r" && s.block.data != [];
      && (AllAgree(ours, std) <==> !held)
      && (held ==> |std| > 0 && AllAgree(ours, std[..|std| - 1]) && Agrees(s.block, std[|std| - 1]))
  {
    var lines := WholeLines(text);
    DrainReadsLines(EMPTY, text);
    HeldLine(EMPTY, text);
    if text != "" && text[|text| - 1] == '\r' {
      LeftEnds(EMPTY, text);
      assert s.buf == "\r" <==> s.buf[..|s.buf| - 1] == "";
      LineMore(EMPTY, STD_START, lines, s.buf[..|s.buf| - 1], s.block, ours, std);
    } else {
      ReadAgrees(EMPTY, STD_START, lines);
    }
  }

  /** One line more than the parser has read: one event more exactly when it is blank and an event with data is open. */
  lemma LineMore(b: Block, s: StdState, lines: seq<string>, held: string, c: Block, ours: seq<Block>,
      std: seq<StdEvent>)
    requires StdRelated(b, s) && c == ReadLines(b, lines).0
    requires ours == WithData(ReadLines(b, lines).1.blocks) && std == StdRead(s, lines + [held])
    ensures
      var more := held == "" && c.data != [];
      && (AllAgree(ours, std) <==> !more)
      && (more ==> |std| > 0 && AllAgree(ours, std[..|std| - 1]) && Agrees(c, std[|std| - 1]))
  {
    ReadAgrees(b, s, lines);
    StdReadSnoc(b, s, lines, held);
    var t :| StdRelated(c, t) && std == StdRead(s, lines) + (if StdLine(t, held).1.Some? then [StdLine(t, held).1.value] else []);
    LastLine(c, t, held, ours, StdRead(s, lines), std);
  }

  lemma LastLine(c: Block, t: StdState, held: string, ours: seq<Block>, read: seq<StdEvent>, std: seq<StdEvent>)
    requires StdRelated(c, t) && AllAgree(ours, read)
    requires std == read + (if StdLine(t, held).1.Some? then [StdLine(t, held).1.value] else [])
    ensures
      var more := held == "" && c.data != [];
      && (AllAgree(ours, std) <==> !more)
      && (more ==> |std| > 0 && AllAgree(ours, std[..|std| - 1]) && Agrees(c, std[|std| - 1]))
  {
    LineAgrees(c, t, held);
    if held == "" && c.data != [] {
      assert std[..|std| - 1] == read;
    } else {
      assert std == read;
    }
  }

  /** Text that ends in a lone \r after an event's line: the standard has the event, the parser still holds it. */
  lemma FinalCrIsHeld(l: string, b: Block, text: string)
    requires NoBreak(l) && Line(EMPTY, l) == (b, Quiet) && b.data != [] && text == l + "\n" + "\r"
    ensures HeldBack(text) && FeedAll(START, [text]).1 == NOTHING
    ensures |StdEvents(text)| == 1 && Agrees(b, StdEvents(text)[0])
  {
    DrainOne(EMPTY, l, "\r", text);
    assert Drain(State("\r", b)) == (State("\r", b), NOTHING);
    assert NOTHING.Plus(NOTHING) == NOTHING;
    FeedStart(text);
    HeldBackIs(text, State("\r", b));
    ShowOne(text, State("\r", b), NOTHING);
    AgreesWithStandard([text]);
    assert Concat([text]) == text;
  }

  lemma HeldBackHappens(text: string)
    requires text == "data: x\n\r"
    ensures HeldBack(text) && FeedAll(START, [text]).1 == NOTHING
    ensures |StdEvents(text)| == 1 && StdEvents(text)[0].ty == "message" && StdEvents(text)[0].data == "x"
  {
    var l := LineX("\r");
    assert "data: x\n" + "\r" == text;
    FinalCrIsHeld(l, OPEN_X, text);
  }

  /** An event with a type and no data: the parser yields it, the standard does not. */
  lemma TypeAloneIsYielded(l: string, b: Block, text: string)
    requires NoBreak(l) && Line(EMPTY, l) == (b, Quiet) && b.ty != "" && b.data == [] && text == l + "\n" + "\n"
    ensures Events(FeedAll(START, [text]).1.blocks) == [Emitted(b)] && StdEvents(text) == []
  {
    EventAlone(l, b, text);
    FeedStart(text);
    ShowOne(text, START, Out([b], []));
    assert WithData([b]) == [] by { assert [b][1..] == []; }
    AgreesWithStandard([text]);
    assert Concat([text]) == text;
  }

  lemma TypeAloneHappens(text: string)
    requires text == "event: t\n\n"
    ensures Events(FeedAll(START, [text]).1.blocks) == [Event("t", "", None)] && StdEvents(text) == []
  {
    var l := FieldLine("event", "t");
    FieldLineReads("event", "t");
    assert text == l + "\n" + "\n";
    TypeAloneIsYielded(l, Block("t", [], None), text);
  }
}
