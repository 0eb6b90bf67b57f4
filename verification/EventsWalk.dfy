/**
 * The page walk of an events client (src/events.js) and the inbox (src/outbox.js), as code: a loop that hands out the
 * items of each page, then checkpoints, then fetches the next page; and one transaction that holds a receipt and
 * its effect. Pipeline interleaves walks and handlers with everything else.
 */
module EventsWalk {
  import opened Prelude

  /** The positions from `from` up to `end` whose event matches, in order. */
  function Matching(log: seq<string>, wants: string -> bool, from: nat, end: nat): (ps: seq<nat>)
    requires from <= end <= |log|
    decreases end - from
  {
    if from == end then []
    else Matching(log, wants, from, end - 1) + (if wants(log[end - 1]) then [end - 1] else [])
  }

  lemma {:induction false} MatchingIs(log: seq<string>, wants: string -> bool, from: nat, end: nat)
    requires from <= end <= |log|
    ensures var ps := Matching(log, wants, from, end);
            && (forall p :: p in ps <==> from <= p < end && wants(log[p]))
            && (forall i, j :: 0 <= i < j < |ps| ==> ps[i] < ps[j])
    decreases end - from
  {
    if from < end {
      var init := Matching(log, wants, from, end - 1);
      MatchingIs(log, wants, from, end - 1);
      assert forall i :: 0 <= i < |init| ==> init[i] in init;
    }
  }

  lemma {:induction false} MatchingSplits(log: seq<string>, wants: string -> bool, a: nat, b: nat, c: nat)
    requires a <= b <= c <= |log|
    ensures Matching(log, wants, a, c) == Matching(log, wants, a, b) + Matching(log, wants, b, c)
    decreases c - b
  {
    if b < c { MatchingSplits(log, wants, a, b, c - 1); }
  }

  lemma MatchingBefore(log: seq<string>, wants: string -> bool, from: nat, end: nat, k: nat)
    requires from <= end <= |log| && k < |Matching(log, wants, from, end)|
    ensures var ps := Matching(log, wants, from, end);
            from <= ps[k] < end && wants(log[ps[k]]) && Matching(log, wants, from, ps[k]) == ps[..k]
    decreases end - from
  {
    var ps := Matching(log, wants, from, end);
    if k == |ps| - 1 && wants(log[end - 1]) {
      assert ps[..k] == Matching(log, wants, from, end - 1);
    } else {
      var init := Matching(log, wants, from, end - 1);
      assert k < |init| && ps[..k] == init[..k];
      MatchingBefore(log, wants, from, end - 1, k);
    }
  }

  function Start(after: Option<nat>, oldest: nat): nat { Max(after.GetOr(0), oldest) }

  /** The cursor of a page, -1 for none yet: Events answers it from the oldest retained event. */
  function Cursor(after: Option<nat>): int { if after.Some? then after.value else -1 }

  /** The caller's loop body over one page: every item, or those before the one it breaks off on. */
  method HandlePage(done: seq<nat>, items: seq<nat>, fails: nat -> bool) returns (handled: seq<nat>, broke: Option<nat>)
    requires forall k :: 0 <= k < |done| ==> !fails(k)
    ensures forall k :: 0 <= k < |handled| ==> !fails(k)
    ensures broke.None? ==> handled == done + items
    ensures broke.Some? ==> broke.value < |items| && handled == done + items[..broke.value] && fails(|handled|)
  {
    handled, broke := done, None;
    var i := 0;
    while i < |items|
      invariant 0 <= i <= |items| && handled == done + items[..i]
      invariant forall k :: 0 <= k < |handled| ==> !fails(k)
    {
      if fails(|handled|) { return handled, Some(i); }
      handled := handled + [items[i]];
      i := i + 1;
    }
    assert items[..i] == items;
  }

  /**
   * The walk. Events holds `log`, pruned below `oldest`, and answers a cursor with the page that ends at `pageEnd` of
   * it; `fails(k)` says that the caller's loop body breaks off on the k-th item. `saved` is the cursor the caller
   * keeps in onPage. The items handled are the matching ones up to `reached`, in order and once each; however the
   * walk ends, the saved cursor never passes what was handled: a walk that breaks off has saved the start of the page
   * it was on, and one that ends by itself has saved it all.
   */
  method Iterate(log: seq<string>, wants: string -> bool, oldest: nat, pageEnd: int -> int, after: Option<nat>,
                 maxPages: Option<nat>, fails: nat -> bool)
    returns (handled: seq<nat>, saved: Option<nat>, gap: bool, broke: bool, pages: nat, ghost reached: nat)
    requires oldest <= |log| && (after.Some? ==> after.value <= |log|)
    requires forall c :: -1 <= c <= |log| ==> Max(c, oldest) <= pageEnd(c) <= |log|
    ensures Start(after, oldest) <= reached <= |log|
    ensures handled == Matching(log, wants, Start(after, oldest), reached)
    ensures saved == after || (saved.Some? && saved.value <= reached)
    ensures gap ==> after.Some? && after.value < oldest
    ensures after.Some? && after.value < oldest && (maxPages.Some? ==> maxPages.value > 0) ==> gap
    ensures forall k :: 0 <= k < |handled| ==> !fails(k)
    ensures broke ==> fails(|handled|) && reached < |log| && wants(log[reached])
    ensures broke ==> Start(saved, oldest) <= reached < pageEnd(Cursor(saved))
    ensures !broke && pages > 0 ==> saved == Some(reached)
    ensures !broke ==> maxPages == Some(pages) || reached == |log| || pageEnd(reached) == reached
  {
    handled, saved, gap, broke, pages, reached := [], after, false, false, 0, Start(after, oldest);
    var cursor := Cursor(after);
    ghost var start := reached;
    while maxPages.None? || pages < maxPages.value
      invariant -1 <= cursor <= |log| && !broke
      invariant pages == 0 ==> saved == after && cursor == Cursor(after) && reached == start && !gap
      invariant pages > 0 ==> saved == Some(reached) && cursor == reached
      invariant start <= reached <= |log| && Max(cursor, oldest) == reached
      invariant handled == Matching(log, wants, start, reached)
      invariant pages > 0 ==> gap == (after.Some? && after.value < oldest)
      invariant forall k :: 0 <= k < |handled| ==> !fails(k)
      invariant maxPages.Some? ==> pages <= maxPages.value
      decreases |log| - cursor
    {
      ghost var (before, from) := (handled, reached);
      var next := pageEnd(cursor);
      var items := Matching(log, wants, Max(cursor, oldest), next);
      if 0 <= cursor < oldest { gap := true; }
      var brokeAt: Option<nat>;
      handled, brokeAt := HandlePage(handled, items, fails);
      if brokeAt.Some? {
        MatchingBefore(log, wants, from, next, brokeAt.value);
        reached, broke := items[brokeAt.value], true;
        MatchingSplits(log, wants, start, from, reached);
        return;
      }
      MatchingSplits(log, wants, start, from, next);
      reached, saved, pages := next, Some(next), pages + 1;
      if next == cursor || next == |log| { return; }
      cursor := next;
    }
  }

  /** The inbox table and what the handlers wrote, as committed. */
  class Inbox {
    var receipts: set<(string, string)>
    var effects: seq<(string, string)>

    /** A receipt for each effect and the other way round, and no effect twice. */
    ghost predicate Valid()
      reads this
    {
      Distinct(effects) && forall r :: r in receipts <==> r in effects
    }

    constructor ()
      ensures Valid() && receipts == {} && effects == []
    {
      receipts, effects := {}, [];
    }

    /**
     * Run the handler once per consumer and event, in one transaction with the receipt: a handler that throws takes
     * its receipt with it, so the event may come again; a repeat after it committed changes nothing.
     */
    method Once(consumer: string, eventId: string, handlerThrows: bool) returns (duplicate: bool, threw: bool)
      requires Valid()
      modifies this
      ensures Valid()
      ensures duplicate == ((consumer, eventId) in old(receipts)) && threw == (!duplicate && handlerThrows)
      ensures effects == if duplicate || threw then old(effects) else old(effects) + [(consumer, eventId)]
      ensures receipts == if duplicate || threw then old(receipts) else old(receipts) + {(consumer, eventId)}
    {
      var (before, done) := (receipts, effects);
      if (consumer, eventId) in receipts { return true, false; }
      receipts := receipts + {(consumer, eventId)};
      effects := effects + [(consumer, eventId)];
      if handlerThrows {
        receipts, effects := before, done;
        return false, true;
      }
      duplicate, threw := false, false;
      assert effects[|done|] == (consumer, eventId);
      assert forall r :: r in effects <==> r in done || r == (consumer, eventId);
      assert forall i :: 0 <= i < |done| ==> done[i] in done;
    }
  }
}
