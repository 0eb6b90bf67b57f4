/**
 * parseSSE (src/realtime.js): an event stream read in chunks of decoded text. Lines are assembled across chunks,
 * a \r\n pair that is split between two chunks included, and a blank line dispatches the event built so far. A retry
 * time reaches the caller while its chunk is read, an event only when the whole chunk has been.
 */
module Sse {
  import opened Prelude

  // -- Lines ------------------------------------------------------------------

  predicate IsBreak(c: char) { c == '\r' || c == '\n' }

  /** The index of the first line break, or |s|. */
  function FirstBreak(s: string): (i: nat)
    ensures i <= |s| && (i < |s| ==> IsBreak(s[i]))
    ensures forall j :: 0 <= j < i ==> !IsBreak(s[j])
  {
    if s == [] || IsBreak(s[0]) then 0 else 1 + FirstBreak(s[1..])
  }

  /** The first whole line of the buffer and what follows it; a \r at the very end waits for what comes next. */
  function NextLine(buf: string): (r: Option<(string, string)>)
    ensures r.Some? ==> |r.value.1| < |buf|
  {
    var i := FirstBreak(buf);
    if i == |buf| || (buf[i] == '\r' && i == |buf| - 1) then None
    else if buf[i] == '\r' && buf[i + 1] == '\n' then Some((buf[..i], buf[i + 2..]))
    else Some((buf[..i], buf[i + 1..]))
  }

  lemma FirstBreakIs(s: string, i: nat)
    requires i < |s| && IsBreak(s[i]) && forall j :: 0 <= j < i ==> !IsBreak(s[j])
    ensures FirstBreak(s) == i
  {
  }

  /** More text leaves the first whole line as it is. */
  lemma NextLineStable(buf: string, more: string)
    requires NextLine(buf).Some?
    ensures NextLine(buf + more) == Some((NextLine(buf).value.0, NextLine(buf).value.1 + more))
  {
    var i := FirstBreak(buf);
    FirstBreakIs(buf + more, i);
    assert (buf + more)[..i] == buf[..i];
    assert (buf + more)[i + 1..] == buf[i + 1..] + more;
    if buf[i] == '\r' && buf[i + 1] == '\n' { assert (buf + more)[i + 2..] == buf[i + 2..] + more; }
  }

  // -- Fields and events ------------------------------------------------------

  /** An event as the parser yields it; `id` is None when the event had no id field. */
  datatype Event = Event(event: string, data: string, id: Option<string>)

  /** The event being built. */
  datatype Block = Block(ty: string, data: seq<string>, id: Option<string>)

  const EMPTY: Block := Block("", [], None)

  /** The first colon, or |s|. */
  function Colon(s: string): (i: nat)
    ensures i <= |s| && (i < |s| ==> s[i] == ':')
    ensures forall j :: 0 <= j < i ==> s[j] != ':'
  {
    if s == [] || s[0] == ':' then 0 else 1 + Colon(s[1..])
  }

  function FieldOf(l: string): string { l[..Colon(l)] }

  /** What follows the colon, without one leading space. */
  function ValueOf(l: string): string {
    var i := Colon(l);
    if i == |l| then "" else if i + 1 < |l| && l[i + 1] == ' ' then l[i + 2..] else l[i + 1..]
  }

  predicate AllDigits(s: string) { s != [] && forall i :: 0 <= i < |s| ==> '0' <= s[i] <= '9' }

  /** What one line does to the block, and what it hands out: a finished block, or a retry time. */
  datatype Effect = Quiet | Dispatch(block: Block) | Retry(ms: string)

  function Line(b: Block, l: string): (Block, Effect) {
    if l == "" then (EMPTY, if b.data != [] || b.ty != "" then Dispatch(b) else Quiet)
    else if l[0] == ':' then (b, Quiet)
    else
      var (field, value) := (FieldOf(l), ValueOf(l));
      if field == "event" then (b.(ty := value), Quiet)
      else if field == "data" then (b.(data := b.data + [value]), Quiet)
      else if field == "id" && '\0' !in value then (b.(id := Some(value)), Quiet)
      else if field == "retry" && AllDigits(value) then (b, Retry(value))
      else (b, Quiet)
  }

  /** A line that sets the time to wait before connecting again: the word, a colon, perhaps a space, and digits. */
  ghost predicate IsRetryLine(l: string, ms: string) {
    && (l == "retry:" + ms || l == "retry: " + ms)
    && |ms| > 0 && forall i :: 0 <= i < |ms| ==> '0' <= ms[i] <= '9'
  }

  /** A retry time is reported exactly for such a line, and as it is written there. */
  lemma RetryIff(b: Block, l: string, ms: string)
    ensures Line(b, l).1 == Retry(ms) <==> IsRetryLine(l, ms)
    ensures IsRetryLine(l, ms) ==> Line(b, l).0 == b
  {
    if IsRetryLine(l, ms) {
      assert forall j :: 0 <= j < 5 ==> l[j] != ':';
      assert l[5] == ':' && l[..5] == "retry";
      assert Colon(l) == 5;
      assert if l == "retry: " + ms then l[7..] == ms else l[6..] == ms;
    }
    if Line(b, l).1 == Retry(ms) {
      var i := Colon(l);
      assert l[..i] == "retry" && l == l[..i] + l[i..];
    }
  }

  function Join(lines: seq<string>): string {
    if lines == [] then "" else if |lines| == 1 then lines[0] else lines[0] + "\n" + Join(lines[1..])
  }

  function Emitted(b: Block): Event { Event(if b.ty == "" then "message" else b.ty, Join(b.data), b.id) }

  /** What came out so far: the finished blocks and the retry times, each in order. */
  datatype Out = Out(blocks: seq<Block>, retries: seq<string>) {
    function Plus(o: Out): Out { Out(blocks + o.blocks, retries + o.retries) }
  }

  const NOTHING: Out := Out([], [])

  function Of(e: Effect): Out {
    match e
    case Quiet => NOTHING
    case Dispatch(b) => Out([b], [])
    case Retry(ms) => Out([], [ms])
  }

  function Events(bs: seq<Block>): (es: seq<Event>)
    ensures |es| == |bs|
    ensures forall i :: 0 <= i < |bs| ==> es[i] == Emitted(bs[i])
  {
    seq(|bs|, i requires 0 <= i < |bs| => Emitted(bs[i]))
  }

  /** What reaches the caller: an event yielded, or a call of onRetry. */
  datatype Obs = Ev(event: Event) | Rt(ms: string)

  function Evs(es: seq<Event>): (os: seq<Obs>)
    ensures |os| == |es| && forall i :: 0 <= i < |es| ==> os[i] == Ev(es[i])
  {
    seq(|es|, i requires 0 <= i < |es| => Ev(es[i]))
  }

  function Rts(ms: seq<string>): (os: seq<Obs>)
    ensures |os| == |ms| && forall i :: 0 <= i < |ms| ==> os[i] == Rt(ms[i])
  {
    seq(|ms|, i requires 0 <= i < |ms| => Rt(ms[i]))
  }

  /** How the caller sees what came out of one chunk: its retry times first, then its events. */
  function Shown(o: Out): (os: seq<Obs>)
    ensures |os| == |o.retries| + |o.blocks|
  {
    Rts(o.retries) + Evs(Events(o.blocks))
  }

  function EventsIn(os: seq<Obs>): (es: seq<Event>)
    ensures |es| <= |os|
  {
    if os == [] then [] else (if os[0].Ev? then [os[0].event] else []) + EventsIn(os[1..])
  }

  function RetriesIn(os: seq<Obs>): (ms: seq<string>)
    ensures |ms| == |os| - |EventsIn(os)|
  {
    if os == [] then [] else (if os[0].Rt? then [os[0].ms] else []) + RetriesIn(os[1..])
  }

  // -- The parser over chunks -------------------------------------------------

  /** The parser between two chunks. */
  datatype State = State(buf: string, block: Block)

  const START: State := State("", EMPTY)

  /** Take whole lines off the buffer until none is left. */
  function Drain(s: State): (r: (State, Out))
    decreases |s.buf|
  {
    match NextLine(s.buf)
    case None => (s, NOTHING)
    case Some((l, rest)) =>
      var (b, e) := Line(s.block, l);
      var (t, o) := Drain(State(rest, b));
      (t, Of(e).Plus(o))
  }

  function Feed(s: State, chunk: string): (State, Out) { Drain(s.(buf := s.buf + chunk)) }

  function FeedAll(s: State, chunks: seq<string>): (State, Out) {
    if chunks == [] then (s, NOTHING)
    else
      var n := |chunks| - 1;
      var (t, o) := FeedAll(s, chunks[..n]);
      var (u, p) := Feed(t, chunks[n]);
      (u, o.Plus(p))
  }

  /** One pass over the whole text. */
  function Parse(text: string): (State, Out) { Feed(START, text) }

  /** What the caller sees of a stream, in the order it sees it. */
  function ShownAll(s: State, chunks: seq<string>): seq<Obs>
    decreases |chunks|
  {
    if chunks == [] then []
    else ShownAll(s, chunks[..|chunks| - 1]) + Shown(Feed(FeedAll(s, chunks[..|chunks| - 1]).0, chunks[|chunks| - 1]).1)
  }

  /**
   * The parser itself: buf, type, data, id and out are the generator's variables; `seen` is what reached the caller.
   */
  class Parser {
    var buf: string
    var ty: string
    var data: seq<string>
    var id: Option<string>
    var out: seq<Event>
    var seen: seq<Obs>

    ghost function View(): State
      reads this
    {
      State(buf, Block(ty, data, id))
    }

    constructor ()
      ensures View() == START && out == [] && seen == []
    {
      buf, ty, data, id, out, seen := "", "", [], None, [], [];
    }

    method TakeLine(l: string)
      modifies this`ty, this`data, this`id, this`out, this`seen
      ensures View() == State(old(buf), Line(old(View()).block, l).0)
      ensures out == old(out) + Events(Of(Line(old(View()).block, l).1).blocks)
      ensures seen == old(seen) + Rts(Of(Line(old(View()).block, l).1).retries)
    {
      OfShows(Line(View().block, l).1);
      if l == "" {
        if data != [] || ty != "" {
          out := out + [Event(if ty == "" then "message" else ty, Join(data), id)];
        }
        ty, data, id := "", [], None;
        return;
      }
      if l[0] == ':' { return; }
      var i := Colon(l);
      var field := l[..i];
      var value := if i == |l| then "" else l[i + 1..];
      if value != "" && value[0] == ' ' { value := value[1..]; }
      assert value == ValueOf(l);
      if field == "event" { ty := value; }
      else if field == "data" { data := data + [value]; }
      else if field == "id" && '\0' !in value { id := Some(value); }
      else if field == "retry" && AllDigits(value) { seen := seen + [Rt(value)]; }
    }

    /** Whole lines are taken off the buffer until none is left. */
    method TakeLines()
      requires out == []
      modifies this
      ensures View() == Drain(old(View())).0
      ensures out == Events(Drain(old(View())).1.blocks) && seen == old(seen) + Rts(Drain(old(View())).1.retries)
    {
      ghost var (begun, before) := (View(), NOTHING);
      while NextLine(buf).Some?
        invariant Drain(begun).0 == Drain(View()).0
        invariant Drain(begun).1 == before.Plus(Drain(View()).1)
        invariant out == Events(before.blocks) && seen == old(seen) + Rts(before.retries)
        decreases |buf|
      {
        var (l, rest) := NextLine(buf).value;
        ghost var e := Line(View().block, l).1;
        OneLine(begun, View(), before);
        EventsAppend(before.blocks, Of(e).blocks);
        RetriesAppend(old(seen), before.retries, Of(e).retries);
        TakeLine(l);
        buf := rest;
        before := before.Plus(Of(e));
      }
      assert before.Plus(NOTHING) == before;
    }

    /** One chunk: every line it completes, then the events they dispatched. */
    method FeedChunk(chunk: string)
      requires out == []
      modifies this
      ensures View() == Feed(old(View()), chunk).0 && out == []
      ensures seen == old(seen) + Shown(Feed(old(View()), chunk).1)
    {
      buf := buf + chunk;
      ghost var o := Drain(View()).1;
      TakeLines();
      AppendGroups(old(seen), Rts(o.retries), Evs(Events(o.blocks)));
      YieldAll();
    }

    /** The events of a chunk are yielded once the whole chunk has been read. */
    method YieldAll()
      modifies this`out, this`seen
      ensures out == [] && seen == old(seen) + Evs(old(out))
    {
      while out != []
        invariant seen + Evs(out) == old(seen) + Evs(old(out))
        decreases |out|
      {
        YieldOne(seen, out);
        seen := seen + [Ev(out[0])];
        out := out[1..];
      }
    }

    /** The whole stream; text left in the buffer at its end is dropped. */
    method Run(chunks: seq<string>)
      requires out == []
      modifies this
      ensures View() == FeedAll(old(View()), chunks).0 && out == []
      ensures seen == old(seen) + ShownAll(old(View()), chunks)
    {
      var i := 0;
      ghost var start := View();
      while i < |chunks|
        invariant 0 <= i <= |chunks| && out == []
        invariant SoFar(start, chunks[..i], old(seen))
      {
        TakeSnoc(chunks, i);
        FeedNext(chunks[i], start, chunks[..i], old(seen));
        i := i + 1;
      }
      assert chunks[..i] == chunks;
    }

    /** The parser has read these chunks since it was in state `start`, and the caller has seen what they show. */
    ghost predicate SoFar(start: State, done: seq<string>, before: seq<Obs>)
      reads this
    {
      View() == FeedAll(start, done).0 && seen == before + ShownAll(start, done)
    }

    method FeedNext(chunk: string, ghost start: State, ghost done: seq<string>, ghost before: seq<Obs>)
      requires out == [] && SoFar(start, done, before)
      modifies this
      ensures out == [] && SoFar(start, done + [chunk], before)
    {
      ghost var (shown, more) := (ShownAll(start, done), Shown(Feed(View(), chunk).1));
      ShownSnoc(start, done, chunk);
      AppendGroups(before, shown, more);
      FeedChunk(chunk);
    }
  }

  /** Taking one line off the buffer is the first step of draining it. */
  lemma OneLine(begun: State, v: State, before: Out)
    requires NextLine(v.buf).Some? && Drain(begun).0 == Drain(v).0 && Drain(begun).1 == before.Plus(Drain(v).1)
    ensures
      var (l, rest) := NextLine(v.buf).value;
      var (b, e) := Line(v.block, l);
      Drain(begun).0 == Drain(State(rest, b)).0 && Drain(begun).1 == before.Plus(Of(e)).Plus(Drain(State(rest, b)).1)
  {
    var (l, rest) := NextLine(v.buf).value;
    var (b, e) := Line(v.block, l);
    PlusAssoc(before, Of(e), Drain(State(rest, b)).1);
  }

  lemma EventsAppend(a: seq<Block>, b: seq<Block>)
    ensures Events(a + b) == Events(a) + Events(b)
  {
  }

  lemma ShownSnoc(start: State, done: seq<string>, chunk: string)
    ensures FeedAll(start, done + [chunk]).0 == Feed(FeedAll(start, done).0, chunk).0
    ensures ShownAll(start, done + [chunk]) == ShownAll(start, done) + Shown(Feed(FeedAll(start, done).0, chunk).1)
  {
    assert (done + [chunk])[..|done|] == done;
  }

  lemma OfShows(e: Effect)
    ensures Events(Of(e).blocks) == (if e.Dispatch? then [Emitted(e.block)] else [])
    ensures Rts(Of(e).retries) == (if e.Retry? then [Rt(e.ms)] else [])
  {
  }

  lemma YieldOne(seen: seq<Obs>, out: seq<Event>)
    requires out != []
    ensures seen + [Ev(out[0])] + Evs(out[1..]) == seen + Evs(out)
  {
  }

  lemma RetriesAppend(before: seq<Obs>, a: seq<string>, b: seq<string>)
    ensures before + Rts(a + b) == before + Rts(a) + Rts(b)
  {
  }

  lemma PlusAssoc(a: Out, b: Out, c: Out)
    ensures a.Plus(b).Plus(c) == a.Plus(b.Plus(c))
  {
    assert (a.blocks + b.blocks) + c.blocks == a.blocks + (b.blocks + c.blocks);
    assert (a.retries + b.retries) + c.retries == a.retries + (b.retries + c.retries);
  }

  // -- Chunk invariance -------------------------------------------------------

  /** Draining a buffer, then draining what is left with more text, is draining it all. */
  lemma {:induction false} DrainThen(s: State, more: string)
    ensures var (t, o) := Drain(s);
            var (u, p) := Drain(t.(buf := t.buf + more));
            Drain(s.(buf := s.buf + more)) == (u, o.Plus(p))
    decreases |s.buf|
  {
    match NextLine(s.buf) {
      case None =>
        var p := Drain(s.(buf := s.buf + more)).1;
        assert NOTHING.Plus(p) == p;
      case Some((l, rest)) =>
        NextLineStable(s.buf, more);
        var (b, e) := Line(s.block, l);
        DrainThen(State(rest, b), more);
        var (t, o) := Drain(State(rest, b));
        PlusAssoc(Of(e), o, Drain(t.(buf := t.buf + more)).1);
    }
  }

  /** Two chunks fed one after the other are one chunk. */
  lemma FeedTwice(s: State, a: string, b: string)
    ensures
      var (t, o) := Feed(s, a);
      Feed(s, a + b) == (Feed(t, b).0, o.Plus(Feed(t, b).1))
  {
    assert s.buf + (a + b) == (s.buf + a) + b;
    DrainThen(s.(buf := s.buf + a), b);
  }

  lemma {:induction false} FeedAllIsOneFeed(s: State, chunks: seq<string>)
    requires Drain(s) == (s, NOTHING)
    ensures FeedAll(s, chunks) == Feed(s, Concat(chunks))
  {
    if chunks == [] {
      assert s.buf + "" == s.buf;
    } else {
      var n := |chunks| - 1;
      var front := chunks[..n];
      FeedAllIsOneFeed(s, front);
      assert chunks == front + [chunks[n]];
      ConcatSnoc(front, chunks[n]);
      FeedTwice(s, Concat(front), chunks[n]);
    }
  }

  /** However the text is cut into chunks, the events, the retry times and the state are those of one pass over it. */
  lemma ChunkInvariance(chunks: seq<string>)
    ensures FeedAll(START, chunks) == Parse(Concat(chunks))
  {
    FeedAllIsOneFeed(START, chunks);
  }

  // -- The order in which the caller sees it ----------------------------------

  /** What the lines of a buffer hand out, in the order of the text. */
  function InOrder(s: State): seq<Obs>
    decreases |s.buf|
  {
    match NextLine(s.buf)
    case None => []
    case Some((l, rest)) =>
      var (b, e) := Line(s.block, l);
      Shown(Of(e)) + InOrder(State(rest, b))
  }

  /** The retry times of a sequence, then its events. */
  function Regrouped(os: seq<Obs>): seq<Obs> { Rts(RetriesIn(os)) + Evs(EventsIn(os)) }

  /** No event comes before a retry time. */
  ghost predicate RetriesFirst(os: seq<Obs>) { forall i, j :: 0 <= i < j < |os| && os[j].Rt? ==> os[i].Rt? }

  lemma {:induction false} EventsInAppend(a: seq<Obs>, b: seq<Obs>)
    ensures EventsIn(a + b) == EventsIn(a) + EventsIn(b)
    decreases |a|
  {
    if a == [] {
      assert a + b == b;
    } else {
      var rest := a[1..];
      assert (a + b)[0] == a[0] && (a + b)[1..] == rest + b;
      EventsInAppend(rest, b);
      AppendGroups(if a[0].Ev? then [a[0].event] else [], EventsIn(rest), EventsIn(b));
    }
  }

  lemma {:induction false} RetriesInAppend(a: seq<Obs>, b: seq<Obs>)
    ensures RetriesIn(a + b) == RetriesIn(a) + RetriesIn(b)
    decreases |a|
  {
    if a == [] {
      assert a + b == b;
    } else {
      var rest := a[1..];
      assert (a + b)[0] == a[0] && (a + b)[1..] == rest + b;
      RetriesInAppend(rest, b);
      AppendGroups(if a[0].Rt? then [a[0].ms] else [], RetriesIn(rest), RetriesIn(b));
    }
  }

  lemma InAppend(a: seq<Obs>, b: seq<Obs>)
    ensures EventsIn(a + b) == EventsIn(a) + EventsIn(b) && RetriesIn(a + b) == RetriesIn(a) + RetriesIn(b)
  {
    EventsInAppend(a, b);
    RetriesInAppend(a, b);
  }

  lemma {:induction false} InEvs(es: seq<Event>)
    ensures EventsIn(Evs(es)) == es && RetriesIn(Evs(es)) == []
    decreases |es|
  {
    if es != [] {
      assert Evs(es)[1..] == Evs(es[1..]);
      InEvs(es[1..]);
    }
  }

  lemma {:induction false} InRts(ms: seq<string>)
    ensures EventsIn(Rts(ms)) == [] && RetriesIn(Rts(ms)) == ms
    decreases |ms|
  {
    if ms != [] {
      assert Rts(ms)[1..] == Rts(ms[1..]);
      InRts(ms[1..]);
    }
  }

  lemma InShown(o: Out)
    ensures EventsIn(Shown(o)) == Events(o.blocks) && RetriesIn(Shown(o)) == o.retries
  {
    InAppend(Rts(o.retries), Evs(Events(o.blocks)));
    InRts(o.retries);
    InEvs(Events(o.blocks));
  }

  /** A chunk shows its lines' doings regrouped: the retry times first. */
  lemma {:induction false} DrainRegroups(s: State)
    ensures EventsIn(InOrder(s)) == Events(Drain(s).1.blocks) && RetriesIn(InOrder(s)) == Drain(s).1.retries
    ensures Shown(Drain(s).1) == Regrouped(InOrder(s))
    decreases |s.buf|
  {
    match NextLine(s.buf) {
      case None =>
      case Some((l, rest)) =>
        var (b, e) := Line(s.block, l);
        var o := Drain(State(rest, b)).1;
        DrainRegroups(State(rest, b));
        InAppend(Shown(Of(e)), InOrder(State(rest, b)));
        InShown(Of(e));
        EventsAppend(Of(e).blocks, o.blocks);
    }
  }

  lemma {:induction false} OnlyEvents(os: seq<Obs>)
    requires forall i :: 0 <= i < |os| ==> os[i].Ev?
    ensures Evs(EventsIn(os)) == os && RetriesIn(os) == []
    decreases |os|
  {
    if os != [] {
      OnlyEvents(os[1..]);
      assert os == [os[0]] + os[1..];
      assert EventsIn(os) == [os[0].event] + EventsIn(os[1..]);
    }
  }

  lemma {:induction false} RegroupedSame(os: seq<Obs>)
    requires RetriesFirst(os)
    ensures Regrouped(os) == os
    decreases |os|
  {
    if os != [] && os[0].Rt? {
      RegroupedSame(os[1..]);
      assert os == [os[0]] + os[1..];
      assert Rts([os[0].ms] + RetriesIn(os[1..])) == [os[0]] + Rts(RetriesIn(os[1..]));
    } else {
      OnlyEvents(os);
    }
  }

  /** Regrouping changes nothing exactly when the retry times come first already. */
  lemma RegroupedIff(os: seq<Obs>)
    ensures Regrouped(os) == os <==> RetriesFirst(os)
  {
    if RetriesFirst(os) { RegroupedSame(os); }
  }

  lemma {:induction false} InOrderThen(s: State, more: string)
    ensures InOrder(s.(buf := s.buf + more)) == InOrder(s) + InOrder(Drain(s).0.(buf := Drain(s).0.buf + more))
    decreases |s.buf|
  {
    match NextLine(s.buf) {
      case None =>
      case Some((l, rest)) =>
        NextLineStable(s.buf, more);
        var (b, e) := Line(s.block, l);
        InOrderThen(State(rest, b), more);
    }
  }

  /** What the lines completed by chunk i hand out, in the order of the text. */
  function LinesOfChunk(s: State, chunks: seq<string>, i: nat): seq<Obs>
    requires i < |chunks|
  {
    var t := FeedAll(s, chunks[..i]).0;
    InOrder(t.(buf := t.buf + chunks[i]))
  }

  /** No chunk dispatches an event before a line of the same chunk that reports a retry time. */
  ghost predicate NoneOvertaken(s: State, chunks: seq<string>) {
    forall i :: 0 <= i < |chunks| ==> RetriesFirst(LinesOfChunk(s, chunks, i))
  }

  lemma {:induction false} DrainLeavesNoLine(s: State)
    ensures InOrder(Drain(s).0) == [] && NextLine(Drain(s).0.buf).None?
    decreases |s.buf|
  {
    match NextLine(s.buf)
    case None =>
    case Some((l, rest)) => DrainLeavesNoLine(State(rest, Line(s.block, l).0));
  }

  lemma NoneOvertakenSnoc(s: State, front: seq<string>, last: string)
    ensures
      var (t, all) := (FeedAll(s, front).0, front + [last]);
      NoneOvertaken(s, all) <==> NoneOvertaken(s, front) && RetriesFirst(InOrder(t.(buf := t.buf + last)))
  {
    var all := front + [last];
    assert all[..|front|] == front && all[|front|] == last;
    forall i | 0 <= i < |front| ensures LinesOfChunk(s, all, i) == LinesOfChunk(s, front, i) {
      assert all[..i] == front[..i];
    }
    if NoneOvertaken(s, all) {
      assert RetriesFirst(LinesOfChunk(s, all, |front|));
      forall i | 0 <= i < |front| ensures RetriesFirst(LinesOfChunk(s, front, i)) {
        assert RetriesFirst(LinesOfChunk(s, all, i));
      }
    }
  }

  lemma {:induction false} SeenInOrderFrom(s: State, chunks: seq<string>)
    requires NextLine(s.buf).None?
    ensures |ShownAll(s, chunks)| == |InOrder(s.(buf := s.buf + Concat(chunks)))|
    ensures ShownAll(s, chunks) == InOrder(s.(buf := s.buf + Concat(chunks))) <==> NoneOvertaken(s, chunks)
    decreases |chunks|
  {
    if chunks == [] {
      assert s.buf + "" == s.buf;
    } else {
      var (front, last) := (chunks[..|chunks| - 1], chunks[|chunks| - 1]);
      assert chunks == front + [last];
      SeenInOrderFrom(s, front);
      LastChunk(s, front, last, FeedAll(s, front).0, s.(buf := s.buf + Concat(chunks)));
      NoneOvertakenSnoc(s, front, last);
      var (t, whole) := (FeedAll(s, front).0, s.(buf := s.buf + Concat(front)));
      var (x, y) := (ShownAll(s, front), InOrder(whole));
      var tail := t.(buf := t.buf + last);
      DrainRegroups(tail);
      RegroupedIff(InOrder(tail));
      TwoParts(x, Regrouped(InOrder(tail)), y, InOrder(tail));
    }
  }

  lemma TwoParts(a: seq<Obs>, b: seq<Obs>, c: seq<Obs>, d: seq<Obs>)
    requires |a| == |c|
    ensures a + b == c + d <==> a == c && b == d
  {
    if a + b == c + d {
      assert (a + b)[..|a|] == a && (c + d)[..|a|] == c;
      assert (a + b)[|a|..] == b && (c + d)[|a|..] == d;
    }
  }

  lemma FedIs(s: State, front: seq<string>, whole: State)
    requires NextLine(s.buf).None? && whole == s.(buf := s.buf + Concat(front))
    ensures FeedAll(s, front).0 == Drain(whole).0
  {
    FeedAllIsOneFeed(s, front);
  }

  lemma LastChunk(s: State, front: seq<string>, last: string, t: State, all: State)
    requires NextLine(s.buf).None? && t == FeedAll(s, front).0
    requires all == s.(buf := s.buf + Concat(front + [last]))
    ensures InOrder(all) == InOrder(s.(buf := s.buf + Concat(front))) + InOrder(t.(buf := t.buf + last))
  {
    var whole := s.(buf := s.buf + Concat(front));
    FedIs(s, front, whole);
    ConcatSnoc(front, last);
    AppendGroups(s.buf, Concat(front), last);
    assert all.buf == whole.buf + last;
    InOrderThen(whole, last);
  }

  /**
   * What the caller sees of a stream is what its lines hand out, in the order of the text, exactly when no chunk
   * dispatches an event before a line of the same chunk that reports a retry time.
   */
  lemma SeenInOrderIff(chunks: seq<string>)
    ensures ShownAll(START, chunks) == InOrder(State(Concat(chunks), EMPTY)) <==> NoneOvertaken(START, chunks)
  {
    var text := Concat(chunks);
    assert START.(buf := "" + text) == State(text, EMPTY);
    SeenInOrderFrom(START, chunks);
  }

  /** The text one character at a time. */
  function Singles(text: string): (chunks: seq<string>)
    ensures |chunks| == |text| && forall i :: 0 <= i < |text| ==> chunks[i] == [text[i]]
  {
    seq(|text|, i requires 0 <= i < |text| => [text[i]])
  }

  lemma {:induction false} SinglesJoin(text: string)
    ensures Concat(Singles(text)) == text
  {
    if text != "" {
      assert Singles(text)[1..] == Singles(text[1..]);
      SinglesJoin(text[1..]);
    }
  }

  /** One more character completes at most one line. */
  lemma OneCharOneLine(s: State, c: char)
    requires NextLine(s.buf).None?
    ensures |InOrder(s.(buf := s.buf + [c]))| <= 1
  {
    var buf := s.buf + [c];
    var (i, k) := (FirstBreak(s.buf), FirstBreak(buf));
    if i < |s.buf| { FirstBreakIs(buf, i); }
    if NextLine(buf).Some? {
      var (l, rest) := NextLine(buf).value;
      assert rest == "" || (rest == [c] && c != '\n');
      assert NextLine(rest).None?;
      assert InOrder(State(rest, Line(s.block, l).0)) == [];
    }
  }

  lemma SinglesInOrder(s: State, text: string)
    requires NextLine(s.buf).None?
    ensures NoneOvertaken(s, Singles(text))
  {
    var chunks := Singles(text);
    forall i | 0 <= i < |chunks| ensures RetriesFirst(LinesOfChunk(s, chunks, i)) {
      FeedAllLeavesNoLine(s, chunks[..i]);
      OneCharOneLine(FeedAll(s, chunks[..i]).0, text[i]);
    }
  }

  lemma FeedAllLeavesNoLine(s: State, chunks: seq<string>)
    requires NextLine(s.buf).None?
    ensures NextLine(FeedAll(s, chunks).0.buf).None?
  {
    if chunks != [] {
      var t := FeedAll(s, chunks[..|chunks| - 1]).0;
      DrainLeavesNoLine(t.(buf := t.buf + chunks[|chunks| - 1]));
    }
  }

  /** Where the whole text has its retry times first, every chunk has. */
  lemma {:induction false} WholeFirst(s: State, chunks: seq<string>)
    requires NextLine(s.buf).None? && RetriesFirst(InOrder(s.(buf := s.buf + Concat(chunks))))
    ensures NoneOvertaken(s, chunks)
    decreases |chunks|
  {
    if chunks != [] {
      var (front, last) := (chunks[..|chunks| - 1], chunks[|chunks| - 1]);
      assert chunks == front + [last];
      var t := FeedAll(s, front).0;
      var all := s.(buf := s.buf + Concat(chunks));
      LastChunk(s, front, last, t, all);
      FirstInParts(InOrder(s.(buf := s.buf + Concat(front))), InOrder(t.(buf := t.buf + last)));
      WholeFirst(s, front);
      NoneOvertakenSnoc(s, front, last);
    }
  }

  lemma FirstInParts(a: seq<Obs>, b: seq<Obs>)
    requires RetriesFirst(a + b)
    ensures RetriesFirst(a) && RetriesFirst(b)
  {
    forall i, j | 0 <= i < j < |a| && a[j].Rt? ensures a[i].Rt? {
      assert (a + b)[i] == a[i] && (a + b)[j] == a[j];
    }
    forall i, j | 0 <= i < j < |b| && b[j].Rt? ensures b[i].Rt? {
      assert (a + b)[|a| + i] == b[i] && (a + b)[|a| + j] == b[j];
    }
  }

  /** However the text is cut, the caller sees the same. */
  ghost predicate SeenAlike(text: string) {
    forall chunks :: Concat(chunks) == text ==> ShownAll(START, chunks) == Shown(Parse(text).1)
  }

  /**
   * Every way of cutting a text shows the caller the same sequence exactly when no event of the text comes before a
   * retry time.
   */
  lemma SeenAlikeIff(text: string)
    ensures SeenAlike(text) <==> RetriesFirst(InOrder(State(text, EMPTY)))
  {
    var whole := State(text, EMPTY);
    assert START.(buf := "" + text) == whole;
    DrainRegroups(whole);
    RegroupedIff(InOrder(whole));
    assert Shown(Parse(text).1) == Regrouped(InOrder(whole));
    if RetriesFirst(InOrder(whole)) {
      forall chunks | Concat(chunks) == text ensures ShownAll(START, chunks) == Shown(Parse(text).1) {
        WholeFirst(START, chunks);
        SeenInOrderIff(chunks);
      }
    } else {
      SinglesJoin(text);
      SinglesInOrder(START, text);
      SeenInOrderIff(Singles(text));
      assert ShownAll(START, Singles(text)) == InOrder(whole);
    }
  }

  /** The events among what the caller sees are those of the stream, and so are the retry times. */
  lemma {:induction false} SeenHolds(s: State, chunks: seq<string>)
    ensures EventsIn(ShownAll(s, chunks)) == Events(FeedAll(s, chunks).1.blocks)
    ensures RetriesIn(ShownAll(s, chunks)) == FeedAll(s, chunks).1.retries
    decreases |chunks|
  {
    if chunks != [] {
      var front := chunks[..|chunks| - 1];
      var o := Feed(FeedAll(s, front).0, chunks[|chunks| - 1]).1;
      SeenHolds(s, front);
      InShown(o);
      InAppend(ShownAll(s, front), Shown(o));
      EventsAppend(FeedAll(s, front).1.blocks, o.blocks);
    }
  }

  // -- Round trip -------------------------------------------------------------

  predicate NoBreak(s: string) { forall i :: 0 <= i < |s| ==> !IsBreak(s[i]) }

  /** Data cut at every \n. */
  function SplitLines(s: string): (ls: seq<string>)
    ensures ls != []
    decreases |s|
  {
    var i := Newline(s);
    if i == |s| then [s] else [s[..i]] + SplitLines(s[i + 1..])
  }

  function Newline(s: string): (i: nat)
    ensures i <= |s| && (i < |s| ==> s[i] == '\n')
    ensures forall j :: 0 <= j < i ==> s[j] != '\n'
  {
    if s == [] || s[0] == '\n' then 0 else 1 + Newline(s[1..])
  }

  lemma {:induction false} JoinSplit(s: string)
    ensures Join(SplitLines(s)) == s
    decreases |s|
  {
    var i := Newline(s);
    if i < |s| {
      JoinSplit(s[i + 1..]);
      var rest := SplitLines(s[i + 1..]);
      assert SplitLines(s) == [s[..i]] + rest && ([s[..i]] + rest)[1..] == rest;
      assert s == s[..i] + "\n" + s[i + 1..];
    }
  }

  lemma {:induction false} SplitNoBreak(s: string)
    requires '\r' !in s
    ensures forall k :: 0 <= k < |SplitLines(s)| ==> NoBreak(SplitLines(s)[k])
    decreases |s|
  {
    var i := Newline(s);
    if i < |s| { SplitNoBreak(s[i + 1..]); }
  }

  /** An event a server may send: one-line type and id, and no \r in the data. */
  predicate Sendable(e: Event) {
    e.event != "" && NoBreak(e.event) && '\r' !in e.data && (e.id.Some? ==> NoBreak(e.id.value) && '\0' !in e.id.value)
  }

  function FieldLine(name: string, value: string): string { name + ": " + value }

  /**
   * The lines of one event: its type, its id if it has one, a data line for each line of the data, and a blank line.
   */
  function LinesOf(e: Event): seq<string> {
    [FieldLine("event", e.event)] + (if e.id.Some? then [FieldLine("id", e.id.value)] else [])
    + DataLines(SplitLines(e.data)) + [""]
  }

  function DataLines(ls: seq<string>): (r: seq<string>)
    ensures |r| == |ls|
    ensures forall i :: 0 <= i < |ls| ==> r[i] == FieldLine("data", ls[i])
  {
    seq(|ls|, i requires 0 <= i < |ls| => FieldLine("data", ls[i]))
  }

  function TextOf(lines: seq<string>): string {
    if lines == [] then "" else lines[0] + "\n" + TextOf(lines[1..])
  }

  function Serialised(es: seq<Event>): string {
    if es == [] then "" else TextOf(LinesOf(es[0])) + Serialised(es[1..])
  }

  /** Reading a run of lines. */
  function ReadLines(b: Block, lines: seq<string>): (Block, Out)
    decreases |lines|
  {
    if lines == [] then (b, NOTHING)
    else
      var (c, e) := Line(b, lines[0]);
      var (d, o) := ReadLines(c, lines[1..]);
      (d, Of(e).Plus(o))
  }

  lemma NextOfText(l: string, rest: string)
    requires NoBreak(l)
    ensures NextLine(l + "\n" + rest) == Some((l, rest))
  {
    var s := l + "\n" + rest;
    FirstBreakIs(s, |l|);
    assert s[..|l|] == l && s[|l| + 1..] == rest;
  }

  lemma {:induction false} DrainText(b: Block, lines: seq<string>, rest: string)
    requires forall i :: 0 <= i < |lines| ==> NoBreak(lines[i])
    ensures var (c, o) := ReadLines(b, lines);
            var (t, p) := Drain(State(rest, c));
            Drain(State(TextOf(lines) + rest, b)) == (t, o.Plus(p))
    decreases |lines|
  {
    if lines == [] {
      assert TextOf(lines) + rest == rest;
      assert NOTHING.Plus(Drain(State(rest, b)).1) == Drain(State(rest, b)).1;
    } else {
      var tail := TextOf(lines[1..]) + rest;
      assert TextOf(lines) + rest == lines[0] + "\n" + tail;
      NextOfText(lines[0], tail);
      var (c, e) := Line(b, lines[0]);
      DrainText(c, lines[1..], rest);
      var (d, o) := ReadLines(c, lines[1..]);
      PlusAssoc(Of(e), o, Drain(State(rest, d)).1);
    }
  }

  lemma FieldLineReads(name: string, value: string)
    requires name != "" && ':' !in name
    ensures var l := FieldLine(name, value); l != "" && l[0] != ':' && FieldOf(l) == name && ValueOf(l) == value
  {
    var l := FieldLine(name, value);
    ColonIs(l, |name|);
    assert l[..|name|] == name && l[|name| + 2..] == value;
  }

  lemma ColonIs(s: string, i: nat)
    requires i < |s| && s[i] == ':' && forall j :: 0 <= j < i ==> s[j] != ':'
    ensures Colon(s) == i
  {
  }

  lemma {:induction false} ReadAppend(b: Block, xs: seq<string>, ys: seq<string>)
    ensures var (c, o) := ReadLines(b, xs);
            var (d, p) := ReadLines(c, ys);
            ReadLines(b, xs + ys) == (d, o.Plus(p))
    decreases |xs|
  {
    if xs == [] {
      assert xs + ys == ys;
      assert NOTHING.Plus(ReadLines(b, ys).1) == ReadLines(b, ys).1;
    } else {
      assert (xs + ys)[1..] == xs[1..] + ys;
      var (c, e) := Line(b, xs[0]);
      ReadAppend(c, xs[1..], ys);
      var (d, o) := ReadLines(c, xs[1..]);
      PlusAssoc(Of(e), o, ReadLines(d, ys).1);
    }
  }

  lemma {:induction false} ReadData(b: Block, ls: seq<string>)
    ensures ReadLines(b, DataLines(ls)) == (b.(data := b.data + ls), NOTHING)
    decreases |ls|
  {
    if ls == [] {
      assert b.data + ls == b.data;
    } else {
      FieldLineReads("data", ls[0]);
      assert DataLines(ls)[1..] == DataLines(ls[1..]) && DataLines(ls)[0] == FieldLine("data", ls[0]);
      assert Line(b, DataLines(ls)[0]) == (b.(data := b.data + [ls[0]]), Quiet);
      ReadData(b.(data := b.data + [ls[0]]), ls[1..]);
      assert (b.data + [ls[0]]) + ls[1..] == b.data + ls;
      assert NOTHING.Plus(NOTHING) == NOTHING;
    }
  }

  lemma ReadOne(b: Block, l: string)
    ensures ReadLines(b, [l]) == (Line(b, l).0, Of(Line(b, l).1))
  {
    assert [l][1..] == [];
    assert Of(Line(b, l).1).Plus(NOTHING) == Of(Line(b, l).1);
  }

  lemma ReadHead(e: Event)
    requires Sendable(e)
    ensures var head := [FieldLine("event", e.event)] + (if e.id.Some? then [FieldLine("id", e.id.value)] else []);
            ReadLines(EMPTY, head) == (Block(e.event, [], e.id), NOTHING)
  {
    FieldLineReads("event", e.event);
    var first := FieldLine("event", e.event);
    ReadOne(EMPTY, first);
    if e.id.Some? {
      FieldLineReads("id", e.id.value);
      var second := FieldLine("id", e.id.value);
      ReadOne(Block(e.event, [], None), second);
      ReadAppend(EMPTY, [first], [second]);
    } else {
      assert [first] + [] == [first];
    }
  }

  /** The lines of an event, read from nothing, give that event back and nothing else. */
  lemma ReadEvent(e: Event)
    requires Sendable(e)
    ensures ReadLines(EMPTY, LinesOf(e)) == (EMPTY, Out([Block(e.event, SplitLines(e.data), e.id)], []))
    ensures Emitted(Block(e.event, SplitLines(e.data), e.id)) == e
  {
    var head := [FieldLine("event", e.event)] + (if e.id.Some? then [FieldLine("id", e.id.value)] else []);
    var ls := SplitLines(e.data);
    ReadHead(e);
    ReadData(Block(e.event, [], e.id), ls);
    var full := Block(e.event, ls, e.id);
    assert [] + ls == ls;
    assert NOTHING.Plus(NOTHING) == NOTHING && NOTHING.Plus(Out([full], [])) == Out([full], []);
    ReadOne(full, "");
    ReadAppend(EMPTY, head, DataLines(ls));
    ReadAppend(EMPTY, head + DataLines(ls), [""]);
    JoinSplit(e.data);
  }

  lemma FieldLineNoBreak(name: string, value: string)
    requires NoBreak(name) && NoBreak(value)
    ensures NoBreak(FieldLine(name, value))
  {
  }

  lemma LinesNoBreak(e: Event)
    requires Sendable(e)
    ensures forall i :: 0 <= i < |LinesOf(e)| ==> NoBreak(LinesOf(e)[i])
  {
    FieldLineNoBreak("event", e.event);
    if e.id.Some? { FieldLineNoBreak("id", e.id.value); }
    SplitNoBreak(e.data);
    var ls := SplitLines(e.data);
    forall i | 0 <= i < |ls| ensures NoBreak(DataLines(ls)[i]) { FieldLineNoBreak("data", ls[i]); }
  }

  /** The text of one event, read before more text, yields that event first. */
  lemma DrainEvent(e: Event, rest: string)
    requires Sendable(e)
    ensures
      var (t, o) := Drain(State(rest, EMPTY));
      Drain(State(TextOf(LinesOf(e)) + rest, EMPTY)) == (t, Out([Block(e.event, SplitLines(e.data), e.id)], []).Plus(o))
  {
    LinesNoBreak(e);
    DrainText(EMPTY, LinesOf(e), rest);
    ReadEvent(e);
  }

  lemma {:induction false} ParseSerialised(es: seq<Event>)
    requires forall i :: 0 <= i < |es| ==> Sendable(es[i])
    ensures var (t, o) := Drain(State(Serialised(es), EMPTY)); t == START && Events(o.blocks) == es && o.retries == []
    decreases |es|
  {
    if es != [] {
      var (e, rest) := (es[0], es[1..]);
      ParseSerialised(rest);
      ParseOneMore(e, rest, Serialised(rest));
      assert es == [e] + rest;
    }
  }

  lemma ParseOneMore(e: Event, rest: seq<Event>, text: string)
    requires Sendable(e)
    requires var (t, o) := Drain(State(text, EMPTY)); t == START && Events(o.blocks) == rest && o.retries == []
    ensures
      var (t, o) := Drain(State(TextOf(LinesOf(e)) + text, EMPTY));
      t == START && Events(o.blocks) == [e] + rest && o.retries == []
  {
    DrainEvent(e, text);
    ReadEvent(e);
    EventsFirst(Block(e.event, SplitLines(e.data), e.id), Drain(State(text, EMPTY)).1.blocks);
  }

  lemma EventsFirst(b: Block, bs: seq<Block>)
    ensures Events([b] + bs) == [Emitted(b)] + Events(bs)
  {
  }

  /** Events serialised, cut into chunks anywhere, and parsed are the same events. */
  lemma RoundTrip(es: seq<Event>, chunks: seq<string>)
    requires (forall i :: 0 <= i < |es| ==> Sendable(es[i])) && Concat(chunks) == Serialised(es)
    ensures FeedAll(START, chunks).0 == START
    ensures Events(FeedAll(START, chunks).1.blocks) == es && FeedAll(START, chunks).1.retries == []
  {
    ChunkInvariance(chunks);
    ParseSerialised(es);
    assert "" + Serialised(es) == Serialised(es);
  }

  /** One line and its end, before more text. */
  lemma DrainOne(b: Block, l: string, rest: string, buf: string)
    requires NoBreak(l) && buf == l + "\n" + rest
    ensures
      var (c, e) := Line(b, l);
      Drain(State(buf, b)) == (Drain(State(rest, c)).0, Of(e).Plus(Drain(State(rest, c)).1))
  {
    NextOfText(l, rest);
  }

  lemma FeedStart(text: string)
    ensures Feed(START, text) == Drain(State(text, EMPTY))
  {
    assert "" + text == text;
  }

  /** A blank line dispatches the open block. */
  lemma BlankReads(b: Block, rest: string, buf: string, t: State, o: Out)
    requires (b.data != [] || b.ty != "") && buf == "\n" + rest && Drain(State(rest, EMPTY)) == (t, o)
    ensures Drain(State(buf, b)) == (t, Out([b], []).Plus(o))
  {
    assert buf == "" + "\n" + rest;
    DrainOne(b, "", rest, buf);
  }

  /** An event of one line, before more text. */
  lemma EventReads(l: string, b: Block, rest: string, text: string, t: State, o: Out)
    requires NoBreak(l) && Line(EMPTY, l) == (b, Quiet) && (b.data != [] || b.ty != "")
    requires text == l + "\n" + ("\n" + rest) && Drain(State(rest, EMPTY)) == (t, o)
    ensures Drain(State(text, EMPTY)) == (t, Out([b], []).Plus(o))
  {
    BlankReads(b, rest, "\n" + rest, t, o);
    DrainOne(EMPTY, l, "\n" + rest, text);
    var p := Out([b], []).Plus(o);
    assert NOTHING.Plus(p) == p;
  }

  lemma RetryReads(m: string, ms: string, text: string)
    requires NoBreak(m) && Line(EMPTY, m) == (EMPTY, Retry(ms)) && text == m + "\n"
    ensures Drain(State(text, EMPTY)) == (START, Out([], [ms]))
  {
    DrainOne(EMPTY, m, "", text);
    assert Out([], [ms]).Plus(NOTHING) == Out([], [ms]);
  }

  lemma ReadTogether(l: string, b: Block, next: string, ms: string, text: string)
    requires NoBreak(l) && Line(EMPTY, l) == (b, Quiet) && (b.data != [] || b.ty != "")
    requires text == l + "\n" + ("\n" + next) && Drain(State(next, EMPTY)) == (START, Out([], [ms]))
    ensures ShownAll(START, [text]) == [Rt(ms), Ev(Emitted(b))]
  {
    EventReads(l, b, next, text, START, Out([], [ms]));
    ShownPair(b, ms);
    ShowOne(text, START, Out([b], [ms]));
  }

  lemma ShownPair(b: Block, ms: string)
    ensures Out([b], []).Plus(Out([], [ms])) == Out([b], [ms])
    ensures Shown(Out([b], [ms])) == [Rt(ms), Ev(Emitted(b))]
    ensures Shown(Out([b], [])) + Shown(Out([], [ms])) == [Ev(Emitted(b)), Rt(ms)]
  {
  }

  lemma ReadApart(first: string, b: Block, next: string, ms: string)
    requires Drain(State(first, EMPTY)) == (START, Out([b], [])) && Drain(State(next, EMPTY)) == (START, Out([], [ms]))
    ensures ShownAll(START, [first, next]) == [Ev(Emitted(b)), Rt(ms)]
  {
    ShowTwo(first, next, Out([b], []), Out([], [ms]));
    ShownPair(b, ms);
  }

  lemma EventAlone(l: string, b: Block, text: string)
    requires NoBreak(l) && Line(EMPTY, l) == (b, Quiet) && (b.data != [] || b.ty != "") && text == l + "\n" + "\n"
    ensures Drain(State(text, EMPTY)) == (START, Out([b], []))
  {
    assert text == l + "\n" + ("\n" + "");
    EventReads(l, b, "", text, START, NOTHING);
    assert Out([b], []).Plus(NOTHING) == Out([b], []);
  }

  /** An event of one line and then a retry time in one chunk: the retry time is seen first. */
  lemma SeenTogether(l: string, b: Block, m: string, ms: string, first: string, next: string)
    requires NoBreak(l) && Line(EMPTY, l) == (b, Quiet) && (b.data != [] || b.ty != "") && first == l + "\n" + "\n"
    requires NoBreak(m) && Line(EMPTY, m) == (EMPTY, Retry(ms)) && next == m + "\n"
    ensures ShownAll(START, [first + next]) == [Rt(ms), Ev(Emitted(b))]
  {
    RetryReads(m, ms, next);
    ReadTogether(l, b, next, ms, first + next);
  }

  /** Cut between the two, the event is. */
  lemma SeenApart(l: string, b: Block, m: string, ms: string, first: string, next: string)
    requires NoBreak(l) && Line(EMPTY, l) == (b, Quiet) && (b.data != [] || b.ty != "") && first == l + "\n" + "\n"
    requires NoBreak(m) && Line(EMPTY, m) == (EMPTY, Retry(ms)) && next == m + "\n"
    ensures ShownAll(START, [first, next]) == [Ev(Emitted(b)), Rt(ms)]
  {
    RetryReads(m, ms, next);
    EventAlone(l, b, first);
    ReadApart(first, b, next, ms);
  }

  const OPEN_X: Block := Block("", ["x"], None)

  lemma LineX(tail: string) returns (l: string)
    ensures NoBreak(l) && Line(EMPTY, l) == (OPEN_X, Quiet) && "data: x\n" + tail == l + "\n" + tail
  {
    l := FieldLine("data", "x");
    FieldLineReads("data", "x");
    assert EMPTY.data + ["x"] == ["x"];
  }

  lemma LineRetry(next: string) returns (m: string)
    requires next == "retry: 5\n"
    ensures NoBreak(m) && Line(EMPTY, m) == (EMPTY, Retry("5")) && next == m + "\n"
  {
    m := FieldLine("retry", "5");
    FieldLineReads("retry", "5");
  }

  lemma CutDecidesOrder(first: string, next: string)
    requires first == "data: x\n\n" && next == "retry: 5\n"
    ensures ShownAll(START, [first + next]) == [Rt("5"), Ev(Event("message", "x", None))]
    ensures ShownAll(START, [first, next]) == [Ev(Event("message", "x", None)), Rt("5")]
  {
    var l := LineX("\n");
    var m := LineRetry(next);
    assert first == "data: x\n" + "\n" && Emitted(OPEN_X) == Event("message", "x", None);
    SeenTogether(l, OPEN_X, m, "5", first, next);
    SeenApart(l, OPEN_X, m, "5", first, next);
  }

  lemma ShowOne(a: string, t: State, o: Out)
    requires Drain(State(a, EMPTY)) == (t, o)
    ensures ShownAll(START, [a]) == Shown(o) && FeedAll(START, [a]) == (t, o)
  {
    FeedStart(a);
    assert [a][..0] == [];
    assert NOTHING.Plus(o) == o;
  }

  lemma ShowTwo(a: string, b: string, o: Out, p: Out)
    requires Drain(State(a, EMPTY)) == (START, o) && Drain(State(b, EMPTY)).1 == p
    ensures ShownAll(START, [a, b]) == Shown(o) + Shown(p)
  {
    assert [a, b][..1] == [a];
    ShowOne(a, START, o);
    FeedStart(b);
  }
}
