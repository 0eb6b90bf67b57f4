/**
 * Subject assertions (src/assertions.js): the checks of one assertion, and a verifier that remembers the jtis it has
 * accepted for a replay window. The check reads the clock before it waits for a key; the memory reads it afterwards.
 *
 * Keys and signatures are inputs; times are milliseconds, the claims whole seconds (sections 4.1.4 to 4.1.7 of RFC
 * 7519).
 */
module Assertions {
  import opened Prelude

  /** What the token says and what the caller asked for, as far as acceptance depends on it. */
  datatype Claims = Claims(
    exp: Option<int>, nbf: Option<int>, iat: Option<int>, issuer: string, audience: seq<string>, namesPerson: bool,
    act: Option<string>, carriers: Option<seq<string>>, jti: string)

  datatype Token = Token(wellFormed: bool, keys: Option<nat>, signed: bool, claims: Claims)

  datatype Asked = Asked(issuer: string, audience: seq<string>, caller: string)

  datatype Code =
    | Malformed | NoKey | BadSignature | Expired | NotYetValid | WrongIssuer | WrongAudience
    | InvalidClaims | ActorMismatch | Replayed

  const SKEW := 10
  const TTL := 60
  const WINDOW := 120000

  predicate SmallLetter(c: char) { 'a' <= c <= 'z' }

  /** svc:, a letter, and one to 39 letters, digits or dashes. */
  predicate IsService(s: string) {
    && 6 <= |s| <= 44 && s[..4] == "svc:" && SmallLetter(s[4])
    && forall i :: 5 <= i < |s| ==> SmallLetter(s[i]) || '0' <= s[i] <= '9' || s[i] == '-'
  }

  predicate AllServices(s: seq<string>) { forall i :: 0 <= i < |s| ==> IsService(s[i]) }

  predicate Wanted(have: seq<string>, want: seq<string>) { exists i :: 0 <= i < |want| && want[i] in have }

  /** The services that may carry it: the list, or the minting service alone. */
  function MayCarry(c: Claims): seq<string> {
    if c.carriers.Some? && c.carriers.value != [] then c.carriers.value else [c.act.GetOr("")]
  }

  /** verifySubjectAssertion without `seen`: the first check that fails, at time `now`. */
  function Check(token: Token, asked: Asked, now: int): Option<Code> {
    var (c, t) := (token.claims, now / 1000);
    if !token.wellFormed then Some(Malformed)
    else if token.keys.None? || token.keys.value == 0 then Some(NoKey)
    else if !token.signed then Some(BadSignature)
    else if c.exp.None? || c.exp.value + SKEW < t then Some(Expired)
    else if c.nbf.Some? && c.nbf.value - SKEW > t then Some(NotYetValid)
    else if c.iat.None? || c.iat.value - SKEW > t then Some(NotYetValid)
    else if asked.issuer != "" && c.issuer != asked.issuer then Some(WrongIssuer)
    else if asked.audience != [] && !Wanted(c.audience, asked.audience) then Some(WrongAudience)
    else if !c.namesPerson then Some(InvalidClaims)
    else if c.act.Some? && !IsService(c.act.value) then Some(InvalidClaims)
    else if c.carriers.Some? && !AllServices(c.carriers.value) then Some(InvalidClaims)
    else if asked.caller != "" && asked.caller !in MayCarry(c) then Some(ActorMismatch)
    else if c.jti == "" then Some(InvalidClaims)
    else None
  }

  /** svc: and a name: a small letter, then one to 39 small letters, digits or dashes. */
  ghost predicate NamesService(s: string) {
    exists name :: s == "svc:" + name && IsServiceName(name)
  }

  ghost predicate IsServiceName(name: string) {
    && 2 <= |name| <= 40 && 'a' <= name[0] <= 'z'
    && forall i :: 0 < i < |name| ==> 'a' <= name[i] <= 'z' || '0' <= name[i] <= '9' || name[i] == '-'
  }

  lemma ServiceIff(s: string)
    ensures IsService(s) <==> NamesService(s)
  {
    if IsService(s) {
      assert s == "svc:" + s[4..] && IsServiceName(s[4..]);
    }
    if NamesService(s) {
      var name :| s == "svc:" + name && IsServiceName(name);
      assert s[..4] == "svc:" && forall i :: 4 <= i < |s| ==> s[i] == name[i - 4];
    }
  }

  /** Signed by a key that is known. */
  ghost predicate Genuine(token: Token) {
    token.wellFormed && token.keys.Some? && token.keys.value > 0 && token.signed
  }

  /** Not over and not still to come, ten seconds either way, to the whole second. */
  ghost predicate InTime(c: Claims, now: int) {
    && c.exp.Some? && now < (c.exp.value + 11) * 1000
    && (c.nbf.Some? ==> (c.nbf.value - 10) * 1000 <= now)
    && c.iat.Some? && (c.iat.value - 10) * 1000 <= now
  }

  /** From the issuer, and for one of the audiences, that the caller of the check asked for. */
  ghost predicate Meant(c: Claims, asked: Asked) {
    && (asked.issuer == "" || c.issuer == asked.issuer)
    && (asked.audience == [] || exists a :: a in asked.audience && a in c.audience)
  }

  /** Carried by a service it lists, or, when it lists none, by the one that minted it. */
  ghost predicate CarriedRight(c: Claims, asked: Asked) {
    asked.caller == ""
    || (if c.carriers.Some? && c.carriers.value != [] then asked.caller in c.carriers.value
        else asked.caller == c.act.GetOr(""))
  }

  ghost predicate NamesRight(c: Claims) {
    && c.namesPerson && c.jti != "" && (c.act.Some? ==> NamesService(c.act.value))
    && (c.carriers.Some? ==> forall i :: 0 <= i < |c.carriers.value| ==> NamesService(c.carriers.value[i]))
  }

  lemma ClaimsAreServices(c: Claims)
    ensures c.act.Some? ==> (IsService(c.act.value) <==> NamesService(c.act.value))
    ensures c.carriers.Some? ==>
              (AllServices(c.carriers.value)
               <==> forall i :: 0 <= i < |c.carriers.value| ==> NamesService(c.carriers.value[i]))
  {
    if c.act.Some? { ServiceIff(c.act.value); }
    if c.carriers.Some? {
      forall i | 0 <= i < |c.carriers.value|
        ensures IsService(c.carriers.value[i]) <==> NamesService(c.carriers.value[i])
      {
        ServiceIff(c.carriers.value[i]);
      }
    }
  }

  /** An assertion passes exactly when it is genuine, in time, meant for whoever asks, and carried by whom it names. */
  lemma PassesIff(token: Token, asked: Asked, now: int)
    ensures Check(token, asked, now).None?
            <==> Genuine(token) && InTime(token.claims, now) && Meant(token.claims, asked)
                 && NamesRight(token.claims) && CarriedRight(token.claims, asked)
  {
    var c := token.claims;
    ClaimsAreServices(c);
    WantedIff(c.audience, asked.audience);
  }

  lemma WantedIff(have: seq<string>, want: seq<string>)
    ensures Wanted(have, want) <==> exists a :: a in want && a in have
  {
  }

  /** The code of a refusal is true of the assertion. */
  lemma CodeIsTrue(token: Token, asked: Asked, now: int)
    requires Check(token, asked, now).Some?
    ensures
      var c := token.claims;
      match Check(token, asked, now).value
      case Malformed => !token.wellFormed
      case NoKey => token.keys.None? || token.keys.value == 0
      case BadSignature => !token.signed
      case Expired => c.exp.None? || now >= (c.exp.value + 11) * 1000
      case NotYetValid =>
        (c.nbf.Some? && now < (c.nbf.value - 10) * 1000) || c.iat.None? || now < (c.iat.value - 10) * 1000
      case WrongIssuer => asked.issuer != "" && c.issuer != asked.issuer
      case WrongAudience => asked.audience != [] && forall a :: a in asked.audience ==> a !in c.audience
      case InvalidClaims => !NamesRight(c)
      case ActorMismatch => !CarriedRight(c, asked)
      case Replayed => false
  {
    ClaimsAreServices(token.claims);
    WantedIff(token.claims.audience, asked.audience);
  }

  // -- The memory of jtis -----------------------------------------------------

  type Seen = map<string, int>

  function Pruned(seen: Seen, now: int): Seen { map j | j in seen && now - seen[j] <= WINDOW :: seen[j] }

  /**
   * One use, with its three readings of the clock: checked at `checked`, the memory pruned at `pruned`, the jti
   * remembered at `now`; or a call of size.
   */
  datatype Event = Use(token: Token, asked: Asked, checked: int, pruned: int, now: int) | Size(pruned: int)

  predicate Accepts(seen: Seen, e: Event) {
    e.Use? && Check(e.token, e.asked, e.checked).None? && e.token.claims.jti !in Pruned(seen, e.pruned)
  }

  function Next(seen: Seen, e: Event): Seen {
    match e
    case Size(pruned) => Pruned(seen, pruned)
    case Use(token, asked, checked, pruned, now) =>
      if Check(token, asked, checked).Some? then seen
      else if token.claims.jti in Pruned(seen, pruned) then Pruned(seen, pruned)
      else Pruned(seen, pruned)[token.claims.jti := now]
  }

  class Verifier {
    var seen: Seen

    constructor ()
      ensures seen == map[]
    {
      seen := map[];
    }

    method Prune(now: int)
      modifies this
      ensures seen == Pruned(old(seen), now)
    {
      seen := map j | j in seen && !(now - seen[j] > WINDOW) :: seen[j];
    }

    method Verify(token: Token, asked: Asked, checked: int, pruned: int, now: int) returns (refused: Option<Code>)
      modifies this
      ensures seen == Next(old(seen), Use(token, asked, checked, pruned, now))
      ensures refused.None? <==> Accepts(old(seen), Use(token, asked, checked, pruned, now))
      ensures Check(token, asked, checked).Some? ==> refused == Check(token, asked, checked)
      ensures Check(token, asked, checked).None? && refused.Some? ==> refused.value == Replayed
    {
      refused := Check(token, asked, checked);
      if refused.Some? { return; }
      Prune(pruned);
      if token.claims.jti in seen { return Some(Replayed); }
      seen := seen[token.claims.jti := now];
    }
  }

  // -- No assertion is accepted twice -----------------------------------------

  function SeenAfter(events: seq<Event>): Seen
    decreases |events|
  {
    if events == [] then map[] else Next(SeenAfter(events[..|events| - 1]), events[|events| - 1])
  }

  predicate Accepted(events: seq<Event>, i: nat)
    requires i < |events|
  {
    Accepts(SeenAfter(events[..i]), events[i])
  }

  /** The last reading of the clock in an event. */
  function End(e: Event): int { if e.Use? then e.now else e.pruned }

  ghost predicate InOrder(events: seq<Event>) {
    && (forall i, j :: 0 <= i < j < |events| ==> End(events[i]) <= events[j].pruned)
    && (forall i :: 0 <= i < |events| ==> events[i].pruned <= End(events[i]))
  }

  /** The clock never runs back, and from a check to the memory pass at most `delay` milliseconds. */
  ghost predicate Timed(events: seq<Event>, delay: int) {
    && InOrder(events)
    && (forall i :: 0 <= i < |events| && events[i].Use? ==>
      events[i].checked <= events[i].pruned <= events[i].checked + delay)
  }

  /** An accepted jti is remembered until the window has passed. */
  lemma {:induction false} Remembered(events: seq<Event>, i: nat)
    requires i < |events| && Accepted(events, i) && InOrder(events)
    ensures
      var (seen, jti) := (SeenAfter(events), events[i].token.claims.jti);
      (jti in seen && seen[jti] >= events[i].now) || events[|events| - 1].pruned - events[i].now > WINDOW
    decreases |events|
  {
    var front := events[..|events| - 1];
    if i == |events| - 1 {
      assert events[..i] == front;
    } else {
      assert front[..i] == events[..i] && front[i] == events[i];
      Remembered(front, i);
      assert front[|front| - 1].pruned <= End(front[|front| - 1]) <= events[|events| - 1].pruned;
      assert End(events[i]) <= events[|events| - 1].pruned;
    }
  }

  /** Between two uses that both pass the time checks of one assertion lie fewer than 81 seconds. */
  lemma ChecksAreClose(c: Claims, token: Token, asked: Asked, other: Asked, first: int, second: int)
    requires token.claims == c && Check(token, asked, first).None? && Check(token, other, second).None?
    requires c.exp.value <= c.iat.value + TTL
    ensures second - first < (TTL + 2 * SKEW + 1) * 1000
  {
  }

  /** Use j brings the assertion again that use i was accepted with; it lives a minute at most. */
  ghost predicate Repeats(events: seq<Event>, i: nat, j: nat) {
    && i < j < |events| && Accepted(events, i) && events[j].Use? && events[j].token == events[i].token
    && events[i].token.claims.exp.value <= events[i].token.claims.iat.value + TTL
  }

  /** The longest a check may wait for its key. */
  const SAFE_DELAY := 39001
  const LATE := 80999 + SAFE_DELAY + 1

  /**
   * An assertion is accepted at most once: if it expires within a minute of being issued, and no check waits more than
   * 39 seconds for its key, two uses of one assertion are never both accepted, however many uses lie between them.
   */
  lemma AcceptedOnce(events: seq<Event>, delay: int, i: nat, j: nat)
    requires delay <= SAFE_DELAY && Timed(events, delay) && Repeats(events, i, j)
    ensures !Accepted(events, j)
  {
    var (a, b, jti) := (events[i], events[j], events[i].token.claims.jti);
    if Accepted(events, j) {
      ChecksAreClose(a.token.claims, a.token, a.asked, b.asked, a.checked, b.checked);
      var before := events[..j];
      assert before[..i] == events[..i];
      assert InOrder(before);
      Remembered(before, i);
      assert false;
    }
  }

  /** One millisecond more, and an assertion can be accepted twice. */
  lemma LongerDelayReplays(token: Token, asked: Asked, delay: int)
    requires Check(token, asked, 0).None? && Check(token, asked, 80999).None? && delay > SAFE_DELAY
    requires token.claims.exp.value <= token.claims.iat.value + TTL
    ensures
      var events := [Use(token, asked, 0, 0, 0), Use(token, asked, 80999, LATE, LATE)];
      Timed(events, delay) && Repeats(events, 0, 1) && Accepted(events, 1)
  {
    var events := [Use(token, asked, 0, 0, 0), Use(token, asked, 80999, LATE, LATE)];
    assert events[..0] == [] && events[..1] == [events[0]];
    assert SeenAfter([events[0]]) == Next(map[], events[0]) by { assert [events[0]][..0] == []; }
  }

  /** Such an assertion exists: issued ten seconds ahead, for a minute. */
  lemma LongerDelayHasWitness(jti: string)
    requires jti != ""
    ensures
      var token := Token(true, Some(1), true, Claims(Some(70), None, Some(10), "", [], true, None, None, jti));
      var asked := Asked("", [], "");
      && Check(token, asked, 0).None? && Check(token, asked, 80999).None?
      && token.claims.exp.value <= token.claims.iat.value + TTL
  {
    assert 80999 / 1000 == 80;
  }

  /** On no run with checks that wait at most `delay` for their key is an assertion accepted twice. */
  ghost predicate NoReplay(delay: int) {
    forall events, i, j :: Timed(events, delay) && Repeats(events, i, j) ==> !Accepted(events, j)
  }

  /** No assertion is accepted twice, on any run, exactly when no check waits more than 39.001 s for its key. */
  lemma NoReplayIff(delay: int)
    ensures NoReplay(delay) <==> delay <= SAFE_DELAY
  {
    if delay <= SAFE_DELAY {
      forall events, i, j | Timed(events, delay) && Repeats(events, i, j) ensures !Accepted(events, j) {
        AcceptedOnce(events, delay, i, j);
      }
    } else {
      var token := Token(true, Some(1), true, Claims(Some(70), None, Some(10), "", [], true, None, None, "a"));
      var asked := Asked("", [], "");
      LongerDelayHasWitness("a");
      LongerDelayReplays(token, asked, delay);
      var events := [Use(token, asked, 0, 0, 0), Use(token, asked, 80999, LATE, LATE)];
      assert Timed(events, delay) && Repeats(events, 0, 1);
    }
  }

  /** The memory holds only uses within the window of the last one. */
  lemma MemoryIsRecent(seen: Seen, e: Event)
    requires (e.Size? || Check(e.token, e.asked, e.checked).None?) && e.pruned <= End(e)
    ensures forall j :: j in Next(seen, e) ==> e.pruned - Next(seen, e)[j] <= WINDOW
  {
  }
}
