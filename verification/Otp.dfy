/** One-time passwords: RequestOTP and VerifyOTP as steps of a machine over the two families
    of Redis keys, `otp:auth:<uuid>:<code>` and `uuid_blacklist:<uuid>`. Each handler is one
    step, and its Redis commands succeed. */
module Otp {
  import opened Redis

  /** ttl in milliseconds; any value of either setting. */
  datatype Config = Config(ttl: int, retryLimit: int)

  const DAY := 86_400_000

  /** The stored record names the uuid that it was issued for. */
  datatype State = State(codes: Store<string, string>, attempts: Store<string, int>)

  const EMPTY := State(map[], map[])

  function CodeKey(uuid: string, code: string): string {
    uuid + ":" + code
  }

  datatype Response =
    Sent | BadRequest | TooManyAttempts | WrongCode | Unparsed | UuidMismatch | Undecrypted | Redeemed

  /** What the record found under a code does when it is read: it does not parse, it parses but
      its contact cannot be decrypted, or all goes well. */
  datatype Reading = Garbled | Sealed | Readable

  /** `accepted`: the contact was recognised and encrypted; `wellFormed`: the body parsed and
      the uuid has a valid format. */
  datatype Event =
    | Request(at: int, uuid: string, code: string, accepted: bool)
    | Verify(at: int, uuid: string, code: string, wellFormed: bool, reading: Reading)

  function RequestOtp(cfg: Config, s: State, now: int, uuid: string, code: string): State {
    State(Set(s.codes, CodeKey(uuid, code), uuid, cfg.ttl, now), Set(s.attempts, uuid, 0, 2 * cfg.ttl, now))
  }

  function Attempts(s: State, uuid: string, now: int): int {
    var found := Get(s.attempts, uuid, now);
    if found.None? then 0 else found.value
  }

  function VerifyOtp(cfg: Config, s: State, now: int, uuid: string, code: string, reading: Reading)
    : (State, Response)
  {
    if uuid == "" || code == "" then (s, BadRequest)
    else if Attempts(s, uuid, now) >= cfg.retryLimit then (s, TooManyAttempts)
    else
      match Get(s.codes, CodeKey(uuid, code), now)
      case None =>
        (s.(attempts := Set(s.attempts, uuid, Attempts(s, uuid, now) + 1, DAY, now)), WrongCode)
      case Some(issuedFor) =>
        if reading.Garbled? then (s, Unparsed)
        else if issuedFor != uuid then (s, UuidMismatch)
        else if reading.Sealed? then (s, Undecrypted)
        else (State(Del(s.codes, CodeKey(uuid, code)), Del(s.attempts, uuid)), Redeemed)
  }

  function Step(cfg: Config, s: State, e: Event): (State, Response) {
    match e
    case Request(now, uuid, code, accepted) =>
      if accepted then (RequestOtp(cfg, s, now, uuid, code), Sent) else (s, BadRequest)
    case Verify(now, uuid, code, wellFormed, reading) =>
      if wellFormed then VerifyOtp(cfg, s, now, uuid, code, reading) else (s, BadRequest)
  }

  // ---------------------------------------------------------------- the handlers

  class Handler {
    const cfg: Config
    var codes: Store<string, string>
    var attempts: Store<string, int>

    ghost function Value(): State
      reads this
    {
      State(codes, attempts)
    }

    constructor (cfg: Config)
      ensures this.cfg == cfg && Value() == EMPTY
    {
      this.cfg := cfg;
      codes, attempts := map[], map[];
    }

    method RequestOTP(now: int, userUuid: string, otpCode: string, contactRecognised: bool) returns (r: Response)
      modifies this
      ensures (Value(), r) == Step(cfg, old(Value()), Request(now, userUuid, otpCode, contactRecognised))
    {
      if !contactRecognised {
        return BadRequest;
      }
      codes := Set(codes, CodeKey(userUuid, otpCode), userUuid, cfg.ttl, now);
      attempts := Set(attempts, userUuid, 0, cfg.ttl * 2, now);
      return Sent;
    }

    method IncrementBlacklistAttempts(now: int, uuid: string)
      modifies this`attempts
      ensures attempts == Set(old(attempts), uuid, Attempts(old(Value()), uuid, now) + 1, DAY, now)
    {
      var n := 0;
      var found := Get(attempts, uuid, now);
      if found.Some? {
        n := found.value;
      }
      n := n + 1;
      attempts := Set(attempts, uuid, n, DAY, now);
    }

    method VerifyOTP(now: int, uuid: string, code: string, wellFormed: bool, reading: Reading) returns (r: Response)
      modifies this
      ensures (Value(), r) == Step(cfg, old(Value()), Verify(now, uuid, code, wellFormed, reading))
    {
      if !wellFormed || uuid == "" || code == "" {
        return BadRequest;
      }
      var n := 0;
      var counted := Get(attempts, uuid, now);
      if counted.Some? {
        n := counted.value;
      }
      if n >= cfg.retryLimit {
        return TooManyAttempts;
      }
      var found := Get(codes, CodeKey(uuid, code), now);
      if found.None? {
        IncrementBlacklistAttempts(now, uuid);
        return WrongCode;
      }
      if reading.Garbled? {
        return Unparsed;
      }
      if found.value != uuid {
        return UuidMismatch;
      }
      if reading.Sealed? {
        return Undecrypted;
      }
      codes := Del(codes, CodeKey(uuid, code));
      attempts := Del(attempts, uuid);
      return Redeemed;
    }
  }

  const DIGITS := "0123456789"

  /** GenerateOTP, given the random bytes: one decimal digit a byte, and nothing when the
      random source fails. */
  method GenerateOTP(randomBytes: Option<seq<int>>) returns (code: string)
    requires randomBytes.Some? ==>
               forall i :: 0 <= i < |randomBytes.value| ==> 0 <= randomBytes.value[i] < 256
    ensures randomBytes.None? ==> code == ""
    ensures randomBytes.Some? ==>
              && |code| == |randomBytes.value|
              && forall i :: 0 <= i < |code| ==> code[i] as int == '0' as int + randomBytes.value[i] % 10
    ensures NoColon(code)
  {
    code := "";
    if randomBytes.None? {
      return;
    }
    var bytes := randomBytes.value;
    for i := 0 to |bytes|
      invariant |code| == i
      invariant forall j :: 0 <= j < i ==> code[j] == DIGITS[bytes[j] % 10]
      invariant forall j :: 0 <= j < i ==> code[j] as int == '0' as int + bytes[j] % 10
    {
      code := code + [DIGITS[bytes[i] % 10]];
    }
    assert forall i :: 0 <= i < |code| ==> code[i] in DIGITS;
  }

  predicate NoColon(s: string) {
    ':' !in s
  }

  /** Keys of different uuids or codes differ, as a uuid holds no colon. */
  lemma CodeKeyInjective(u: string, c: string, v: string, d: string)
    requires NoColon(u) && NoColon(v) && CodeKey(u, c) == CodeKey(v, d)
    ensures u == v && c == d
  {
    var key := CodeKey(u, c);
    assert key[|u|] == ':' && key[|v|] == ':';
    assert forall i :: 0 <= i < |u| ==> key[i] == u[i];
    assert forall i :: 0 <= i < |v| ==> key[i] == v[i];
    assert |u| == |v|;
    assert u == key[..|u|] == v;
    assert c == key[|u| + 1..] == d;
  }

  /** A key of a code without a colon either names nothing else. */
  lemma KeyNamesOne(u: string, c: string, v: string, d: string)
    requires NoColon(u) && NoColon(c) && CodeKey(u, c) == CodeKey(v, d)
    ensures u == v && c == d
  {
    var key := CodeKey(v, d);
    assert key[|v|] == ':';
    assert forall i :: 0 <= i < |u| ==> key[i] == u[i];
    assert forall i :: |u| < i < |key| ==> key[i] == c[i - |u| - 1];
    assert |u| == |v|;
    assert u == key[..|u|] == v;
    assert c == key[|u| + 1..] == d;
  }

  // ---------------------------------------------------------------- runs

  function After(cfg: Config, events: seq<Event>): State {
    if events == [] then EMPTY else Step(cfg, After(cfg, events[..|events| - 1]), events[|events| - 1]).0
  }

  /** The answer to the last event of the run. */
  function Answer(cfg: Config, events: seq<Event>): Response
    requires events != []
  {
    Step(cfg, After(cfg, events[..|events| - 1]), events[|events| - 1]).1
  }

  /** Time does not run backwards, and every request that is answered draws a uuid of its
      own, in the canonical form, and a code of digits. */
  ghost predicate IsRun(events: seq<Event>) {
    && (forall i, j :: 0 <= i < j < |events| ==> events[i].at <= events[j].at)
    && (forall i :: 0 <= i < |events| && events[i].Request? ==> NoColon(events[i].uuid) && NoColon(events[i].code))
    && (forall i, j :: 0 <= i < j < |events| && events[i].Request? && events[j].Request? ==>
          events[i].uuid != events[j].uuid)
  }

  lemma EarlierIsRun(events: seq<Event>, n: nat)
    requires IsRun(events) && n <= |events|
    ensures IsRun(events[..n])
  {
  }

  // ---------------------------------------------------------------- what happened, from the events alone

  /** The k-th event issues a password, the empty one if the random source failed. */
  predicate Issues(events: seq<Event>, k: int) {
    0 <= k < |events| && events[k].Request? && events[k].accepted
  }

  /** The password of the k-th event has not run out; without a positive time to live it never
      does. */
  predicate Lives(cfg: Config, issued: Event, now: int) {
    cfg.ttl > 0 ==> now < issued.at + cfg.ttl
  }

  /** A try of some code. */
  predicate IsTry(e: Event) {
    e.Verify? && e.wellFormed && e.uuid != "" && e.code != ""
  }

  /** The event tries a code for the uuid of the k-th, or that very password. */
  predicate Tries(events: seq<Event>, k: nat, e: Event)
    requires k < |events|
  {
    IsTry(e) && e.uuid == events[k].uuid
  }

  predicate Presents(events: seq<Event>, k: nat, e: Event)
    requires k < |events|
  {
    Tries(events, k, e) && e.code == events[k].code
  }

  /** The password of the k-th event can be redeemed: it lives and has not been redeemed. */
  predicate Open(cfg: Config, events: seq<Event>, k: int, now: int)
    decreases |events|, 4
  {
    Issues(events, k) && Lives(cfg, events[k], now) && !Spent(cfg, events, k)
  }

  /** The event that last issued a password for a uuid, or -1. */
  function IssueOf(events: seq<Event>, uuid: string): (k: int)
    ensures k == -1 || (Issues(events, k) && events[k].uuid == uuid)
    ensures forall i :: Issues(events, i) && events[i].uuid == uuid ==> i <= k
  {
    var last := |events| - 1;
    if events == [] then -1
    else if Issues(events, last) && events[last].uuid == uuid then last
    else
      assert forall i :: 0 <= i < last ==> (Issues(events, i) <==> Issues(events[..last], i));
      IssueOf(events[..last], uuid)
  }

  /** The last event is a try with fewer failures behind it than the limit. */
  predicate LetThrough(cfg: Config, events: seq<Event>)
    requires events != []
    decreases |events|, 0
  {
    var past, e := events[..|events| - 1], events[|events| - 1];
    IsTry(e) && Failures(cfg, past, e.uuid, e.at) < cfg.retryLimit
  }

  /** And it presents the password of its uuid while that is open. */
  predicate Hits(cfg: Config, events: seq<Event>)
    requires events != []
    decreases |events|, 1
  {
    var past, e := events[..|events| - 1], events[|events| - 1];
    var k := IssueOf(past, e.uuid);
    LetThrough(cfg, events) && k >= 0 && Presents(past, k, e) && Open(cfg, past, k, e.at)
  }

  /** Or it does not. */
  predicate Misses(cfg: Config, events: seq<Event>)
    requires events != []
    decreases |events|, 2
  {
    LetThrough(cfg, events) && !Hits(cfg, events)
  }

  /** The open password that it presents reads well. */
  predicate Redeems(cfg: Config, events: seq<Event>)
    requires events != []
    decreases |events|, 2
  {
    Hits(cfg, events) && events[|events| - 1].reading.Readable?
  }

  /** The password of the k-th event has been redeemed. */
  predicate Spent(cfg: Config, events: seq<Event>, k: int)
    requires 0 <= k < |events|
    decreases |events|, 3
  {
    |events| > k + 1
    && (Spent(cfg, events[..|events| - 1], k)
        || (Redeems(cfg, events) && IssueOf(events[..|events| - 1], events[|events| - 1].uuid) == k))
  }

  /** How many tries for a uuid missed since its last request or redemption, going back from
      `now` as long as each came less than 24 hours before the next. */
  function Failures(cfg: Config, events: seq<Event>, uuid: string, now: int): nat
    decreases |events|, 3
  {
    if events == [] then 0
    else
      var past, e := events[..|events| - 1], events[|events| - 1];
      if e.uuid == uuid && ((e.Request? && e.accepted) || Redeems(cfg, events)) then 0
      else if e.uuid == uuid && Misses(cfg, events) then
        if now < e.at + 86_400_000 then Failures(cfg, past, uuid, e.at) + 1 else 0
      else Failures(cfg, past, uuid, now)
  }

  /** How many tries for its uuid missed since the k-th event. */
  function WrongCodes(cfg: Config, events: seq<Event>, k: nat): nat
    requires k < |events|
  {
    if |events| == k + 1 then 0
    else
      WrongCodes(cfg, events[..|events| - 1], k)
      + (if Tries(events, k, events[|events| - 1]) && Misses(cfg, events) then 1 else 0)
  }

  /** The same while its password could still be redeemed. */
  function Guesses(cfg: Config, events: seq<Event>, k: nat): nat
    requires k < |events|
  {
    if |events| == k + 1 then 0
    else
      var past, e := events[..|events| - 1], events[|events| - 1];
      Guesses(cfg, past, k)
      + (if Tries(events, k, e) && Misses(cfg, events) && Open(cfg, past, k, e.at) then 1 else 0)
  }

  /** What the last event did, in terms of those before it. */
  lemma LastEvent(cfg: Config, events: seq<Event>)
    requires events != []
    ensures var past, e := events[..|events| - 1], events[|events| - 1];
            var own := IssueOf(past, e.uuid);
            var let := IsTry(e) && Failures(cfg, past, e.uuid, e.at) < cfg.retryLimit;
            && (Hits(cfg, events) <==> let && own >= 0 && Presents(past, own, e) && Open(cfg, past, own, e.at))
            && (Misses(cfg, events) <==> let && !Hits(cfg, events))
            && (Redeems(cfg, events) <==> Hits(cfg, events) && e.reading.Readable?)
  {
    assert LetThrough(cfg, events) <==>
      IsTry(events[|events| - 1])
      && Failures(cfg, events[..|events| - 1], events[|events| - 1].uuid, events[|events| - 1].at) < cfg.retryLimit;
  }

  lemma OpenBy(cfg: Config, events: seq<Event>, k: int, now: int)
    ensures Open(cfg, events, k, now) <==>
              Issues(events, k) && Lives(cfg, events[k], now) && !Spent(cfg, events, k)
  {
  }

  lemma SpentBy(cfg: Config, events: seq<Event>, k: int)
    requires 0 <= k < |events| - 1
    ensures var past, e := events[..|events| - 1], events[|events| - 1];
            Spent(cfg, events, k) <==>
              Spent(cfg, past, k) || (Redeems(cfg, events) && IssueOf(past, e.uuid) == k)
  {
  }

  // ---------------------------------------------------------------- the store follows the events

  /** A key is there for each password that has not been redeemed, and for nothing else. */
  ghost predicate Keeps(cfg: Config, events: seq<Event>, s: State) {
    && (forall k :: Issues(events, k) ==> KeepsOne(cfg, events, s, k))
    && (forall key :: key in s.codes ==> exists k :: IssuesKey(events, k, key))
  }

  ghost predicate KeepsOne(cfg: Config, events: seq<Event>, s: State, k: int)
    requires Issues(events, k)
  {
    var key := CodeKey(events[k].uuid, events[k].code);
    && (key in s.codes <==> !Spent(cfg, events, k))
    && (key in s.codes ==> s.codes[key] == Entry(events[k].uuid, ExpiryOf(cfg.ttl, events[k].at)))
  }

  predicate IssuesKey(events: seq<Event>, k: int, key: string) {
    Issues(events, k) && key == CodeKey(events[k].uuid, events[k].code)
  }

  /** What one event does to one key of a password. */
  lemma StepOnKey(cfg: Config, s: State, e: Event, key: string)
    ensures var (s', answer) := Step(cfg, s, e);
            var own := key == CodeKey(e.uuid, e.code);
            && (answer == Sent && own ==> key in s'.codes && s'.codes[key] == Entry(e.uuid, ExpiryOf(cfg.ttl, e.at)))
            && (answer == Redeemed && own ==> key !in s'.codes)
            && (!own || (answer != Sent && answer != Redeemed) ==>
                  && (key in s'.codes <==> key in s.codes)
                  && (key in s.codes ==> s'.codes[key] == s.codes[key]))
  {
  }

  /** And to the count of one uuid. */
  lemma StepOnCount(cfg: Config, s: State, e: Event, uuid: string, now: int)
    ensures var (s', answer) := Step(cfg, s, e);
            Attempts(s', uuid, now) ==
              if e.uuid == uuid && (answer == Sent || answer == Redeemed) then 0
              else if e.uuid == uuid && answer == WrongCode then
                if now < e.at + 86_400_000 then Attempts(s, uuid, e.at) + 1 else 0
              else Attempts(s, uuid, now)
  {
  }

  /** The one password that was issued for a uuid. */
  lemma IssueIsUnique(events: seq<Event>, k: int)
    requires IsRun(events) && Issues(events, k)
    ensures IssueOf(events, events[k].uuid) == k
  {
  }

  /** A try presents an open password, whichever it is. */
  ghost predicate PresentsOpen(cfg: Config, past: seq<Event>, e: Event) {
    exists k :: Open(cfg, past, k, e.at) && Presents(past, k, e)
  }

  lemma PresentsItsOwn(cfg: Config, past: seq<Event>, e: Event)
    requires IsRun(past)
    ensures var k := IssueOf(past, e.uuid);
            PresentsOpen(cfg, past, e) <==> k >= 0 && Presents(past, k, e) && Open(cfg, past, k, e.at)
  {
    if PresentsOpen(cfg, past, e) {
      var k :| Open(cfg, past, k, e.at) && Presents(past, k, e);
      IssueIsUnique(past, k);
    }
  }

  /** What a try finds under its key is the open password that it presents. */
  lemma LookupFinds(cfg: Config, past: seq<Event>, s: State, e: Event)
    requires IsRun(past) && IsTry(e) && Keeps(cfg, past, s)
    ensures var found := Get(s.codes, CodeKey(e.uuid, e.code), e.at);
            && (found.Some? ==> found.value == e.uuid)
            && (found.Some? <==> PresentsOpen(cfg, past, e))
  {
    var key := CodeKey(e.uuid, e.code);
    if key in s.codes {
      var k :| IssuesKey(past, k, key);
      KeyNamesOne(past[k].uuid, past[k].code, e.uuid, e.code);
      assert KeepsOne(cfg, past, s, k);
      assert Open(cfg, past, k, e.at) <==> Get(s.codes, key, e.at).Some?;
    }
    if PresentsOpen(cfg, past, e) {
      var k :| Open(cfg, past, k, e.at) && Presents(past, k, e);
      assert KeepsOne(cfg, past, s, k);
    }
  }

  /** The answer to one event, given what is stored. */
  lemma AnswerFollows(cfg: Config, events: seq<Event>)
    requires IsRun(events) && events != []
    requires var past, e := events[..|events| - 1], events[|events| - 1];
             && Keeps(cfg, past, After(cfg, past))
             && Attempts(After(cfg, past), e.uuid, e.at) == Failures(cfg, past, e.uuid, e.at)
    ensures (Answer(cfg, events) == Redeemed <==> Redeems(cfg, events))
    ensures (Answer(cfg, events) == WrongCode <==> Misses(cfg, events))
    ensures var past, e := events[..|events| - 1], events[|events| - 1];
            && (Answer(cfg, events) == Sent <==> e.Request? && e.accepted)
            && Answer(cfg, events) != UuidMismatch
            && (Answer(cfg, events) == BadRequest <==> (e.Request? && !e.accepted) || (e.Verify? && !IsTry(e)))
            && (Answer(cfg, events) == TooManyAttempts <==>
                  IsTry(e) && Failures(cfg, past, e.uuid, e.at) >= cfg.retryLimit)
            && (Answer(cfg, events) == Unparsed <==> Hits(cfg, events) && e.reading.Garbled?)
            && (Answer(cfg, events) == Undecrypted <==> Hits(cfg, events) && e.reading.Sealed?)
  {
    var past, e := events[..|events| - 1], events[|events| - 1];
    EarlierIsRun(events, |past|);
    if IsTry(e) {
      LookupFinds(cfg, past, After(cfg, past), e);
      PresentsItsOwn(cfg, past, e);
    }
    LastEvent(cfg, events);
  }

  lemma {:induction false} StoreKeeps(cfg: Config, events: seq<Event>)
    requires IsRun(events)
    ensures Keeps(cfg, events, After(cfg, events))
    decreases |events|, 1
  {
    if events != [] {
      var past, e := events[..|events| - 1], events[|events| - 1];
      EarlierIsRun(events, |past|);
      StoreKeeps(cfg, past);
      CountIsFailures(cfg, past, e.uuid, e.at);
      AnswerFollows(cfg, events);
      forall k | Issues(events, k) ensures KeepsOne(cfg, events, After(cfg, events), k) {
        OneStaysKept(cfg, events, k);
      }
      forall key | key in After(cfg, events).codes ensures exists k :: IssuesKey(events, k, key) {
        KeyStaysIssued(cfg, events, key);
      }
    }
  }

  lemma KeyStaysIssued(cfg: Config, events: seq<Event>, key: string)
    requires events != [] && key in After(cfg, events).codes
    requires var past := events[..|events| - 1]; Keeps(cfg, past, After(cfg, past))
    ensures exists k :: IssuesKey(events, k, key)
  {
    var past, e := events[..|events| - 1], events[|events| - 1];
    StepOnKey(cfg, After(cfg, past), e, key);
    if key in After(cfg, past).codes {
      var k :| IssuesKey(past, k, key);
      assert IssuesKey(events, k, key);
    } else {
      assert IssuesKey(events, |past|, key);
    }
  }

  lemma OneStaysKept(cfg: Config, events: seq<Event>, k: int)
    requires IsRun(events) && Issues(events, k)
    requires var past := events[..|events| - 1];
             Keeps(cfg, past, After(cfg, past)) && (Answer(cfg, events) == Redeemed <==> Redeems(cfg, events))
    ensures KeepsOne(cfg, events, After(cfg, events), k)
  {
    var past, e := events[..|events| - 1], events[|events| - 1];
    var key := CodeKey(events[k].uuid, events[k].code);
    StepOnKey(cfg, After(cfg, past), e, key);
    if k < |past| {
      assert Issues(past, k) && KeepsOne(cfg, past, After(cfg, past), k);
      EarlierIsRun(events, |past|);
      IssueIsUnique(past, k);
      SpentBy(cfg, events, k);
      LastEvent(cfg, events);
      if CodeKey(e.uuid, e.code) == key {
        KeyNamesOne(events[k].uuid, events[k].code, e.uuid, e.code);
      }
    }
  }

  /** The count in Redis is the number of tries for the uuid that missed, one for each, as long
      as it is remembered. */
  lemma {:induction false} CountIsFailures(cfg: Config, events: seq<Event>, uuid: string, now: int)
    requires IsRun(events)
    ensures Attempts(After(cfg, events), uuid, now) == Failures(cfg, events, uuid, now)
    decreases |events|, 1
  {
    if events != [] {
      var past, e := events[..|events| - 1], events[|events| - 1];
      EarlierIsRun(events, |past|);
      CountIsFailures(cfg, past, uuid, now);
      CountIsFailures(cfg, past, uuid, e.at);
      CountIsFailures(cfg, past, e.uuid, e.at);
      StoreKeeps(cfg, past);
      AnswerFollows(cfg, events);
      StepOnCount(cfg, After(cfg, past), e, uuid, now);
    }
  }

  // ---------------------------------------------------------------- the theorems

  lemma AnswerIs(cfg: Config, events: seq<Event>)
    requires IsRun(events) && events != []
    ensures (Answer(cfg, events) == Redeemed <==> Redeems(cfg, events))
    ensures (Answer(cfg, events) == WrongCode <==> Misses(cfg, events))
  {
    var past, e := events[..|events| - 1], events[|events| - 1];
    EarlierIsRun(events, |past|);
    StoreKeeps(cfg, past);
    CountIsFailures(cfg, past, e.uuid, e.at);
    AnswerFollows(cfg, events);
  }

  /** The answer to the last event, from what happened before alone. Over every run a request is
      answered by its acceptance, a try that is not well formed is a bad request, and any other
      is blocked if its remembered failures have reached the limit; if not, it is answered "wrong
      code" if and only if no event issued exactly its uuid and code that lives and has not been
      redeemed, and else by how the record reads. The record is always that of the uuid. */
  lemma AnswerIff(cfg: Config, events: seq<Event>)
    requires IsRun(events) && events != []
    ensures var past, e := events[..|events| - 1], events[|events| - 1];
            Answer(cfg, events) ==
              if e.Request? then (if e.accepted then Sent else BadRequest)
              else if !e.wellFormed || e.uuid == "" || e.code == "" then BadRequest
              else if Failures(cfg, past, e.uuid, e.at) >= cfg.retryLimit then TooManyAttempts
              else if !PresentsOpen(cfg, past, e) then WrongCode
              else match e.reading
                   case Garbled => Unparsed
                   case Sealed => Undecrypted
                   case Readable => Redeemed
  {
    var past, e := events[..|events| - 1], events[|events| - 1];
    EarlierIsRun(events, |past|);
    StoreKeeps(cfg, past);
    CountIsFailures(cfg, past, e.uuid, e.at);
    AnswerFollows(cfg, events);
    PresentsItsOwn(cfg, past, e);
  }

  /** Whatever the settings, whoever presents an issued password after any run of requests and
      tries redeems it if and only if its record can be read, it has not been redeemed, it
      lives and the recent failures have not reached the limit. */
  lemma RedeemedIff(cfg: Config, events: seq<Event>, k: nat)
    requires IsRun(events) && Issues(events, k)
    requires k + 1 < |events| && Presents(events, k, events[|events| - 1])
    ensures var past, e := events[..|events| - 1], events[|events| - 1];
            Answer(cfg, events) == Redeemed <==>
            && e.reading.Readable?
            && !Spent(cfg, past, k) && Lives(cfg, events[k], e.at)
            && Failures(cfg, past, e.uuid, e.at) < cfg.retryLimit
  {
    var past, e := events[..|events| - 1], events[|events| - 1];
    AnswerIs(cfg, events);
    EarlierIsRun(events, |past|);
    assert Issues(past, k);
    IssueIsUnique(past, k);
    LastEvent(cfg, events);
    OpenBy(cfg, past, k, e.at);
  }

  /** A password runs out before a failure is forgotten. */
  predicate Remembered(cfg: Config) {
    0 < cfg.ttl <= 86_400_000
  }

  /** Then the failures that are remembered while it can be redeemed are all since its issue. */
  lemma {:induction false} FailuresAreWrongCodes(cfg: Config, events: seq<Event>, k: nat, now: int)
    requires Remembered(cfg) && IsRun(events) && Open(cfg, events, k, now) && events[|events| - 1].at <= now
    ensures Failures(cfg, events, events[k].uuid, now) == WrongCodes(cfg, events, k)
  {
    if |events| > k + 1 {
      var past, e := events[..|events| - 1], events[|events| - 1];
      EarlierIsRun(events, |past|);
      assert Issues(past, k);
      SpentBy(cfg, events, k);
      OpenBy(cfg, events, k, now);
      OpenBy(cfg, past, k, now);
      OpenBy(cfg, past, k, e.at);
      FailuresAreWrongCodes(cfg, past, k, now);
      FailuresAreWrongCodes(cfg, past, k, e.at);
      IssueIsUnique(past, k);
      LastEvent(cfg, events);
    }
  }

  /** If passwords live at most 24 hours no failure is forgotten in that time: all wrong codes
      since the issue count. */
  lemma RedeemedInADayIff(cfg: Config, events: seq<Event>, k: nat)
    requires Remembered(cfg) && IsRun(events) && Issues(events, k)
    requires k + 1 < |events| && Presents(events, k, events[|events| - 1])
    ensures var past, e := events[..|events| - 1], events[|events| - 1];
            Answer(cfg, events) == Redeemed <==>
            && e.reading.Readable?
            && !Spent(cfg, past, k) && e.at < events[k].at + cfg.ttl
            && WrongCodes(cfg, past, k) < cfg.retryLimit
  {
    var past, e := events[..|events| - 1], events[|events| - 1];
    RedeemedIff(cfg, events, k);
    EarlierIsRun(events, |past|);
    if Open(cfg, past, k, e.at) {
      FailuresAreWrongCodes(cfg, past, k, e.at);
    }
  }

  lemma {:induction false} SpentStays(cfg: Config, events: seq<Event>, more: seq<Event>, k: nat)
    requires k < |events| && Spent(cfg, events, k)
    ensures Spent(cfg, events + more, k)
  {
    if more == [] {
      assert events + more == events;
    } else {
      assert (events + more)[..|events + more| - 1] == events + more[..|more| - 1];
      SpentStays(cfg, events, more[..|more| - 1], k);
    }
  }

  /** Whatever the settings, a password is redeemed only within its time to live, and only if
      it has not been redeemed before. */
  lemma RedeemedWhileItLives(cfg: Config, events: seq<Event>, k: nat)
    requires IsRun(events) && Issues(events, k) && k + 1 < |events|
    requires Presents(events, k, events[|events| - 1]) && Answer(cfg, events) == Redeemed
    ensures !Spent(cfg, events[..|events| - 1], k) && Lives(cfg, events[k], events[|events| - 1].at)
    ensures Spent(cfg, events, k)
  {
    RedeemedIff(cfg, events, k);
    AnswerIs(cfg, events);
    EarlierIsRun(events, |events| - 1);
    IssueIsUnique(events[..|events| - 1], k);
  }

  /** Whatever the settings, a password that has been redeemed is never redeemed again. */
  lemma RedeemedAtMostOnce(cfg: Config, events: seq<Event>, more: seq<Event>, k: nat)
    requires IsRun(events + more) && Issues(events, k) && k + 1 < |events| && more != []
    requires Presents(events, k, events[|events| - 1]) && Answer(cfg, events) == Redeemed
    requires Presents(events + more, k, (events + more)[|events + more| - 1])
    ensures Answer(cfg, events + more) != Redeemed
  {
    var all, most := events + more, more[..|more| - 1];
    assert all[..|all| - 1] == events + most && all[k] == events[k] && all[..|events|] == events;
    EarlierIsRun(all, |events|);
    RedeemedWhileItLives(cfg, events, k);
    SpentStays(cfg, events, most, k);
    if Answer(cfg, all) == Redeemed {
      RedeemedWhileItLives(cfg, all, k);
    }
  }

  /** Nobody redeems a password before it is issued, whatever the settings. */
  lemma NotBeforeIssue(cfg: Config, events: seq<Event>, issued: Event)
    requires IsRun(events + [issued]) && events != [] && issued.Request?
    requires events[|events| - 1].Verify? && events[|events| - 1].uuid == issued.uuid
    ensures Answer(cfg, events) != Redeemed
  {
    var all := events + [issued];
    assert all[..|events|] == events && all[|events|] == issued;
    EarlierIsRun(all, |events|);
    AnswerIs(cfg, events);
    LastEvent(cfg, events);
    assert forall i :: 0 <= i < |events| ==> all[i] == events[i];
  }

  /** A try is turned away without a lookup if and only if the limit was reached by wrong codes
      since the last request or redemption, none of which came 24 hours after the one before. */
  lemma BlockedIff(cfg: Config, events: seq<Event>)
    requires IsRun(events) && events != []
    ensures var past, e := events[..|events| - 1], events[|events| - 1];
            Answer(cfg, events) == TooManyAttempts <==>
            && e.Verify? && e.wellFormed && e.uuid != "" && e.code != ""
            && Failures(cfg, past, e.uuid, e.at) >= cfg.retryLimit
  {
    AnswerIff(cfg, events);
  }

  function Max0(n: int): int { if n < 0 then 0 else n }

  /** All wrong codes tried while it was open are guesses. */
  lemma {:induction false} OpenGuesses(cfg: Config, events: seq<Event>, k: nat, now: int)
    requires IsRun(events) && Open(cfg, events, k, now) && events[|events| - 1].at <= now
    ensures Guesses(cfg, events, k) == WrongCodes(cfg, events, k)
  {
    if |events| > k + 1 {
      EarlierIsRun(events, |events| - 1);
      OpenGuesses(cfg, events[..|events| - 1], k, events[|events| - 1].at);
    }
  }

  lemma {:induction false} GuessesAreBounded(cfg: Config, events: seq<Event>, k: nat)
    requires Remembered(cfg) && IsRun(events) && Issues(events, k)
    ensures Guesses(cfg, events, k) <= Max0(cfg.retryLimit)
  {
    if |events| > k + 1 {
      var past, e := events[..|events| - 1], events[|events| - 1];
      EarlierIsRun(events, |past|);
      GuessesAreBounded(cfg, past, k);
      LastEvent(cfg, events);
      if Open(cfg, past, k, e.at) {
        FailuresAreWrongCodes(cfg, past, k, e.at);
        OpenGuesses(cfg, past, k, e.at);
      }
    }
  }

  /** "At most RetryLimit wrong codes per password", on every run. */
  ghost predicate BoundsGuesses(cfg: Config) {
    forall events: seq<Event>, k: nat | IsRun(events) && Issues(events, k) ::
      Guesses(cfg, events, k) <= Max0(cfg.retryLimit)
  }

  const ISSUE := Request(0, "u", "1", true)

  function Wrong(at: int): Event { Verify(at, "u", "0", true, Readable) }

  /** n wrong codes in the instant of the request. */
  function Burst(n: nat): seq<Event> {
    [ISSUE] + seq(n, _ => Wrong(0))
  }

  /** A wrong code at a time when fewer failures than the limit are remembered. */
  lemma WrongIsGuess(cfg: Config, n: nat, at: int)
    requires Failures(cfg, Burst(n), "u", at) < cfg.retryLimit
    requires Lives(cfg, ISSUE, at) && !Spent(cfg, Burst(n), 0)
    ensures var events := Burst(n) + [Wrong(at)];
            && Misses(cfg, events) && !Spent(cfg, events, 0)
            && Guesses(cfg, events, 0) == Guesses(cfg, Burst(n), 0) + 1
            && forall now :: Failures(cfg, events, "u", now) ==
                               if now < at + 86_400_000 then Failures(cfg, Burst(n), "u", at) + 1 else 0
  {
    var events := Burst(n) + [Wrong(at)];
    assert events[..|events| - 1] == Burst(n);
    assert forall k :: Issues(Burst(n), k) ==> k == 0;
    assert Burst(n)[0] == ISSUE;
    assert LetThrough(cfg, events) && !Hits(cfg, events);
  }

  lemma {:induction false} BurstGuesses(cfg: Config, n: nat)
    requires !Remembered(cfg) && n <= cfg.retryLimit
    ensures !Spent(cfg, Burst(n), 0) && Guesses(cfg, Burst(n), 0) == n
    ensures Failures(cfg, Burst(n), "u", 0) == n
    ensures Failures(cfg, Burst(n), "u", 86_400_000) == 0
  {
    if n == 0 {
      assert Burst(0) == [ISSUE];
    } else {
      BurstGuesses(cfg, n - 1);
      assert Burst(n) == Burst(n - 1) + [Wrong(0)];
      WrongIsGuess(cfg, n - 1, 0);
    }
  }

  lemma BurstIsRun(n: nat, at: int)
    requires at >= 0
    ensures IsRun(Burst(n) + [Wrong(at)]) && Issues(Burst(n) + [Wrong(at)], 0)
  {
  }

  /** A day after the last failure the count is gone and the password still lives. */
  lemma FailuresForgotten(cfg: Config, n: nat)
    requires !Remembered(cfg) && n == cfg.retryLimit && n > 0
    ensures var events := Burst(n) + [Wrong(86_400_000)];
            IsRun(events) && Issues(events, 0) && Guesses(cfg, events, 0) == n + 1
  {
    BurstIsRun(n, 86_400_000);
    BurstGuesses(cfg, n);
    WrongIsGuess(cfg, n, 86_400_000);
  }

  /** The retry limit bounds the guesses on every run if and only if the time to live is
      positive and at most the 24 hours for which a failure is remembered, or the limit
      admits no try at all. */
  lemma BoundsGuessesIff(cfg: Config)
    ensures BoundsGuesses(cfg) <==> 0 < cfg.ttl <= 86_400_000 || cfg.retryLimit <= 0
  {
    if Remembered(cfg) {
      forall events: seq<Event>, k: nat | IsRun(events) && Issues(events, k)
        ensures Guesses(cfg, events, k) <= Max0(cfg.retryLimit)
      {
        GuessesAreBounded(cfg, events, k);
      }
    } else if cfg.retryLimit <= 0 {
      forall events: seq<Event>, k: nat | IsRun(events) && Issues(events, k)
        ensures Guesses(cfg, events, k) <= Max0(cfg.retryLimit)
      {
        NoTries(cfg, events, k);
      }
    } else {
      FailuresForgotten(cfg, cfg.retryLimit);
    }
  }

  lemma {:induction false} NoTries(cfg: Config, events: seq<Event>, k: nat)
    requires cfg.retryLimit <= 0 && k < |events|
    ensures Guesses(cfg, events, k) == 0
  {
    if |events| > k + 1 {
      NoTries(cfg, events[..|events| - 1], k);
      LastEvent(cfg, events);
    }
  }
}
