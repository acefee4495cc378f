/** The counter limiter: incrementCounter and fixedWindowMiddleware. Because every request
    renews the expiry, the counter belongs to a session of requests and starts again only
    after a pause of a whole window. */
module CounterLimiter {
  import opened Division
  import opened TokenBucket

  datatype Counter = Absent | Counting(count: int, deadline: int)

  function Present(key: Counter, now: int): Counter {
    if key.Counting? && now >= key.deadline then Absent else key
  }

  /** INCR followed by EXPIRE, in one pipeline. */
  function Increment(key: Counter, now: int, window: int): Counter {
    var found := Present(key, now);
    Counting((if found.Absent? then 0 else found.count) + 1, now + window)
  }

  datatype Answer = Passed(remaining: int) | PassedUnlimited | Rejected(retryAfter: int)

  /** fixedWindowMiddleware on the key of one client: without a limit or a burst everything
      passes. */
  function Answers(key: Counter, now: int, limit: int, burst: int, window: int): (Counter, Answer) {
    if limit <= 0 || burst <= 0 then (key, PassedUnlimited)
    else
      var key' := Increment(key, now, window);
      (key', if key'.count > limit then Rejected(window / 1000) else Passed(limit - key'.count))
  }

  class CounterKey {
    var present: bool
    var count: int
    var deadline: int

    ghost function Value(): Counter
      reads this
    {
      if present then Counting(count, deadline) else Absent
    }

    constructor ()
      ensures Value() == Absent
    {
      present := false;
      count, deadline := 0, 0;
    }

    method IncrementCounter(now: int, window: int) returns (n: int, ttl: int)
      requires window >= 1
      modifies this
      ensures Value() == Increment(old(Value()), now, window)
      ensures n == Value().count && ttl == window
    {
      if present && now >= deadline {
        present := false;
      }
      if !present {
        count := 0;
      }
      count := count + 1;
      present := true;
      deadline := now + window;
      n, ttl := count, deadline - now;
    }

    method Middleware(now: int, limit: int, burst: int, window: int) returns (answer: Answer)
      requires window >= 1
      modifies this
      ensures (Value(), answer) == Answers(old(Value()), now, limit, burst, window)
      ensures limit <= 0 || burst <= 0 ==> answer == PassedUnlimited && Value() == old(Value())
      ensures limit > 0 && burst > 0 ==>
        && Value() == Increment(old(Value()), now, window)
        && answer == if Value().count <= limit then Passed(limit - Value().count) else Rejected(window / 1000)
    {
      if limit <= 0 || burst <= 0 {
        return PassedUnlimited;
      }
      var n, ttl := IncrementCounter(now, window);
      if n > limit {
        return Rejected(ttl / 1000);
      }
      return Passed(limit - n);
    }
  }

  // ---------------------------------------------------------------- traces of requests

  function CounterAfter(times: seq<int>, window: int): Counter {
    if times == [] then Absent
    else Increment(CounterAfter(times[..|times| - 1], window), times[|times| - 1], window)
  }

  /** The count that the last request sees. */
  function LastCount(times: seq<int>, window: int): int
    requires times != []
  {
    CounterAfter(times, window).count
  }

  /** The place of the last request in its session: a request opens a session when it is the
      first, or comes at least a window after the one before. */
  function Position(times: seq<int>, window: int): nat
    requires times != []
  {
    var last := |times| - 1;
    if last == 0 || times[last] - times[last - 1] >= window then 1 else Position(times[..last], window) + 1
  }

  function Passes(times: seq<int>, from: int, to: int, window: int, limit: int): nat {
    if times == [] then 0
    else
      var t := times[|times| - 1];
      Passes(times[..|times| - 1], from, to, window, limit)
      + (if LastCount(times, window) <= limit && from <= t <= to then 1 else 0)
  }

  /** The counter is the place in the session, so it starts again exactly after a pause of at
      least one window. */
  lemma {:induction false} CountIsPosition(times: seq<int>, window: int)
    requires times != []
    ensures CounterAfter(times, window) == Counting(Position(times, window), times[|times| - 1] + window)
  {
    var past := times[..|times| - 1];
    if past != [] {
      CountIsPosition(past, window);
    }
  }

  /** A client that is rejected and never pauses for a window is rejected ever after. */
  lemma {:induction false} NeverReadmitted(times: seq<int>, more: seq<int>, window: int, limit: int)
    requires times != [] && LastCount(times, window) > limit
    requires forall i :: |times| <= i < |times| + |more| ==> (times + more)[i] - (times + more)[i - 1] < window
    ensures LastCount(times + more, window) == LastCount(times, window) + |more|
    ensures LastCount(times + more, window) > limit
  {
    CountIsPosition(times, window);
    CountIsPosition(times + more, window);
    if more == [] {
      assert times + more == times;
    } else {
      var most := more[..|more| - 1];
      assert (times + more)[..|times + more| - 1] == times + most;
      forall i | |times| <= i < |times| + |most| ensures (times + most)[i] - (times + most)[i - 1] < window {
        assert (times + most)[i] == (times + more)[i] && (times + most)[i - 1] == (times + more)[i - 1];
      }
      NeverReadmitted(times, most, window, limit);
      CountIsPosition(times + most, window);
    }
  }

  /** Each session that begins inside the interval begins a window after the one before. The
      first part of the bound is the sessions that are over, the second the current one. */
  lemma {:induction false} SessionsFit(times: seq<int>, from: int, to: int, window: int, limit: int)
    returns (sessions: nat)
    requires window >= 1 && limit >= 0 && Monotone(times) && from <= to
    requires times != [] && from <= times[|times| - 1] <= to
    ensures sessions * window <= times[|times| - 1] - from
    ensures var count := Position(times, window);
            Passes(times, from, to, window, limit) <= sessions * limit + (if count < limit then count else limit)
  {
    var past, now := times[..|times| - 1], times[|times| - 1];
    CountIsPosition(times, window);
    if past == [] || past[|past| - 1] < from {
      sessions := 0;
      NothingBefore(past, from, to, window, limit);
    } else {
      var before := SessionsFit(past, from, to, window, limit);
      if now - past[|past| - 1] >= window {
        sessions := before + 1;
        OneMore(before, window);
        OneMore(before, limit);
      } else {
        sessions := before;
        assert Position(times, window) == Position(past, window) + 1;
      }
    }
  }

  lemma OneMore(n: int, w: int)
    ensures (n + 1) * w == n * w + w
  {
  }

  lemma {:induction false} NothingBefore(times: seq<int>, from: int, to: int, window: int, limit: int)
    requires Monotone(times) && (times != [] ==> times[|times| - 1] < from)
    ensures Passes(times, from, to, window, limit) == 0
  {
    if times != [] {
      NothingBefore(times[..|times| - 1], from, to, window, limit);
    }
  }

  /** In an interval the limiter passes at most `limit` requests, and as many again for every
      whole window that the interval contains. */
  lemma {:induction false} SpanBound(times: seq<int>, from: int, to: int, window: int, limit: int)
    requires window >= 1 && limit >= 0 && Monotone(times) && from <= to
    ensures Passes(times, from, to, window, limit) <= limit * (1 + (to - from) / window)
  {
    SessionsInSpan(to - from, 0, window, limit);
    if times != [] {
      var now := times[|times| - 1];
      if now < from {
        NothingBefore(times, from, to, window, limit);
      } else if now > to {
        SpanBound(times[..|times| - 1], from, to, window, limit);
      } else {
        var sessions := SessionsFit(times, from, to, window, limit);
        SessionsInSpan(to - from, sessions, window, limit);
      }
    }
  }

  lemma SessionsInSpan(span: int, sessions: nat, window: int, limit: int)
    requires window >= 1 && limit >= 0 && sessions * window <= span
    ensures 0 <= sessions * limit + limit <= limit * (1 + span / window)
  {
    DivAtLeast(span, window, sessions);
    assert (span / window - sessions) * limit >= 0;
    assert sessions * limit >= 0;
    assert limit * (1 + span / window) == limit + sessions * limit + (span / window - sessions) * limit;
  }

  /** "At most `limit` requests in any span of this length", on every trace. */
  ghost predicate KeepsLimit(limit: int, window: int, span: int) {
    forall times: seq<int>, from: int, to: int | Monotone(times) && from <= to <= from + span ::
      Passes(times, from, to, window, limit) <= limit
  }

  lemma {:induction false} LimitAtOnce(n: nat, window: int, limit: int, span: int)
    requires window >= 1 && n <= limit && span >= 0
    ensures var times := seq(n, _ => 0);
            && Passes(times, 0, span, window, limit) == n
            && CounterAfter(times, window) == if n == 0 then Absent else Counting(n, window)
  {
    if n > 0 {
      LimitAtOnce(n - 1, window, limit, span);
      assert seq(n, _ => 0)[..n - 1] == seq(n - 1, _ => 0);
    }
  }

  /** The limiter keeps its limit over a span if and only if the span is shorter than its
      window. */
  lemma KeepsLimitIff(limit: int, window: int, span: int)
    requires limit >= 1 && window >= 1 && span >= 0
    ensures KeepsLimit(limit, window, span) <==> span < window
  {
    if span < window {
      forall times: seq<int>, from: int, to: int | Monotone(times) && from <= to <= from + span
        ensures Passes(times, from, to, window, limit) <= limit
      {
        SpanBound(times, from, to, window, limit);
        DivLess(to - from, window, 1);
        DivAtLeast(to - from, window, 0);
      }
    } else {
      var times := OneTooMany(limit, window, span);
      assert !KeepsLimit(limit, window, span);
    }
  }

  /** The limit at once and one more request a window later. */
  lemma OneTooMany(limit: int, window: int, span: int) returns (times: seq<int>)
    requires limit >= 1 && 1 <= window <= span
    ensures Monotone(times) && Passes(times, 0, span, window, limit) == limit + 1
  {
    times := seq(limit, _ => 0) + [window];
    LimitAtOnce(limit, window, limit, span);
    assert times[..limit] == seq(limit, _ => 0);
  }

  // ---------------------------------------------------------------- AuthRateLimit

  datatype AuthConfig = AuthConfig(loginAttemptsPerMinute: int, otpRequestsPerHour: int)

  const MINUTE := 60_000

  /** The key prefix, the limit and the burst of an action; the window is one minute for
      every action. */
  function AuthPolicy(action: string, cfg: AuthConfig): (string, int, int) {
    if action == "login" then ("auth:login", cfg.loginAttemptsPerMinute, cfg.loginAttemptsPerMinute)
    else if action == "otp" then ("auth:otp", cfg.otpRequestsPerHour, cfg.otpRequestsPerHour)
    else ("auth:default", 10, 10)
  }

  /** The counters in Redis, by key. */
  type Counters = map<string, Counter>

  datatype AuthRequest = AuthRequest(at: int, action: string, client: string)

  function AuthKey(cfg: AuthConfig, r: AuthRequest): string {
    "ratelimit:" + AuthPolicy(r.action, cfg).0 + ":" + r.client
  }

  function CounterOf(s: Counters, key: string): Counter {
    if key in s then s[key] else Absent
  }

  function AuthStep(cfg: AuthConfig, s: Counters, r: AuthRequest): (Counters, Answer) {
    var (_, limit, burst) := AuthPolicy(r.action, cfg);
    var key := AuthKey(cfg, r);
    var (counter, answer) := Answers(CounterOf(s, key), r.at, limit, burst, MINUTE);
    (s[key := counter], answer)
  }

  function AuthAfter(cfg: AuthConfig, run: seq<AuthRequest>): Counters {
    if run == [] then map[] else AuthStep(cfg, AuthAfter(cfg, run[..|run| - 1]), run[|run| - 1]).0
  }

  /** The answer to the last request. */
  function AuthAnswer(cfg: AuthConfig, run: seq<AuthRequest>): Answer
    requires run != []
  {
    AuthStep(cfg, AuthAfter(cfg, run[..|run| - 1]), run[|run| - 1]).1
  }

  /** Actions are counted apart, but for those that have no policy of their own. */
  predicate SameAction(a: string, b: string) {
    a == b || (a !in ["login", "otp"] && b !in ["login", "otp"])
  }

  /** The times of a client's requests for an action. */
  function OwnTimes(run: seq<AuthRequest>, action: string, client: string): seq<int> {
    if run == [] then []
    else
      var r := run[|run| - 1];
      OwnTimes(run[..|run| - 1], action, client)
      + (if r.client == client && SameAction(r.action, action) then [r.at] else [])
  }

  /** Keys of different clients or actions differ. */
  lemma AuthKeysDiffer(cfg: AuthConfig, r: AuthRequest, q: AuthRequest)
    ensures AuthKey(cfg, r) == AuthKey(cfg, q) <==> r.client == q.client && SameAction(r.action, q.action)
  {
    var a, b := AuthPolicy(r.action, cfg).0, AuthPolicy(q.action, cfg).0;
    var k, l := AuthKey(cfg, r), AuthKey(cfg, q);
    assert k[15] == a[5] && l[15] == b[5];
    if k == l {
      assert a[5] == b[5];
      assert a == b;
      assert r.client == k[|"ratelimit:" + a + ":"|..] == q.client;
    }
  }

  /** The limit of an action, 10 where none is configured. */
  function LimitOf(cfg: AuthConfig, action: string): int {
    match action
    case "login" => cfg.loginAttemptsPerMinute
    case "otp" => cfg.otpRequestsPerHour
    case _ => 10
  }

  lemma {:induction false} OwnCounter(cfg: AuthConfig, run: seq<AuthRequest>, r: AuthRequest)
    ensures var own := OwnTimes(run, r.action, r.client);
            CounterOf(AuthAfter(cfg, run), AuthKey(cfg, r)) ==
              if LimitOf(cfg, r.action) <= 0 then Absent else CounterAfter(own, 60_000)
  {
    if run != [] {
      var past, last := run[..|run| - 1], run[|run| - 1];
      OwnCounter(cfg, past, r);
      AuthKeysDiffer(cfg, last, r);
      var own := OwnTimes(run, r.action, r.client);
      if last.client == r.client && SameAction(last.action, r.action) {
        assert own[..|own| - 1] == OwnTimes(past, r.action, r.client);
      } else {
        assert own == OwnTimes(past, r.action, r.client);
      }
    }
  }

  /** The answer to one more request of a client. */
  lemma AnswerOnOwn(cfg: AuthConfig, s: Counters, r: AuthRequest, own: seq<int>)
    requires var limit := LimitOf(cfg, r.action);
             CounterOf(s, AuthKey(cfg, r)) == if limit <= 0 then Absent else CounterAfter(own, 60_000)
    ensures var limit, n := LimitOf(cfg, r.action), Position(own + [r.at], 60_000);
            AuthStep(cfg, s, r).1 ==
              if limit <= 0 then PassedUnlimited else if n > limit then Rejected(60) else Passed(limit - n)
  {
    CountIsPosition(own + [r.at], 60_000);
    assert (own + [r.at])[..|own|] == own;
  }

  /** AuthRateLimit over every run, whoever else sends requests: an action without a positive
      limit is not limited; otherwise a request is rejected, with 60 seconds to wait, if and only
      if its place in the session of that client and action, in which no pause lasts a minute,
      exceeds the limit. */
  lemma AuthAnswerIs(cfg: AuthConfig, run: seq<AuthRequest>)
    requires run != []
    ensures var r := run[|run| - 1];
            var own, limit := OwnTimes(run, r.action, r.client), LimitOf(cfg, r.action);
            && own != []
            && AuthAnswer(cfg, run) ==
               if limit <= 0 then PassedUnlimited
               else if Position(own, 60_000) > limit then Rejected(60)
               else Passed(limit - Position(own, 60_000))
  {
    var past, r := run[..|run| - 1], run[|run| - 1];
    OwnCounter(cfg, past, r);
    AnswerOnOwn(cfg, AuthAfter(cfg, past), r, OwnTimes(past, r.action, r.client));
  }

  /** How many of a client's requests for an action in [from, to] are not rejected. */
  function AuthPasses(cfg: AuthConfig, run: seq<AuthRequest>, action: string, client: string, from: int, to: int)
    : nat
  {
    if run == [] then 0
    else
      var r := run[|run| - 1];
      AuthPasses(cfg, run[..|run| - 1], action, client, from, to)
      + (if r.client == client && r.action == action && from <= r.at <= to && !AuthAnswer(cfg, run).Rejected?
         then 1 else 0)
  }

  predicate InOrder(run: seq<AuthRequest>) {
    forall i, j :: 0 <= i < j < |run| ==> run[i].at <= run[j].at
  }

  lemma {:induction false} OwnPasses(
    cfg: AuthConfig, run: seq<AuthRequest>, action: string, client: string, from: int, to: int)
    requires action in ["login", "otp"] && LimitOf(cfg, action) >= 1 && InOrder(run)
    ensures var own := OwnTimes(run, action, client);
            && Monotone(own) && (own != [] ==> own[|own| - 1] <= run[|run| - 1].at)
            && AuthPasses(cfg, run, action, client, from, to) == Passes(own, from, to, 60_000, LimitOf(cfg, action))
  {
    if run != [] {
      var past, r := run[..|run| - 1], run[|run| - 1];
      OwnPasses(cfg, past, action, client, from, to);
      var own := OwnTimes(run, action, client);
      if r.client == client && SameAction(r.action, action) {
        assert own[..|own| - 1] == OwnTimes(past, action, client);
        AuthAnswerIs(cfg, run);
        CountIsPosition(own, 60_000);
      } else {
        assert own == OwnTimes(past, action, client);
      }
    }
  }

  /** The login limit holds for every client over every span shorter than a minute, whoever else
      sends requests; the hourly OTP limit fails within the hour, because it too is enforced with
      a window of one minute: a run of one client passes more. */
  lemma AuthLimits(cfg: AuthConfig, run: seq<AuthRequest>, client: string, from: int, to: int)
    returns (otps: seq<AuthRequest>)
    requires cfg.loginAttemptsPerMinute >= 1 && cfg.otpRequestsPerHour >= 1
    requires InOrder(run) && from <= to < from + 60_000
    ensures AuthPasses(cfg, run, "login", client, from, to) <= cfg.loginAttemptsPerMinute
    ensures InOrder(otps) && AuthPasses(cfg, otps, "otp", client, 0, 3_600_000) > cfg.otpRequestsPerHour
  {
    OwnPasses(cfg, run, "login", client, from, to);
    KeepsLimitIff(cfg.loginAttemptsPerMinute, 60_000, 59_999);
    assert to <= from + 59_999;
    otps := TooManyOtps(cfg, client);
  }

  function OtpRun(times: seq<int>, client: string): seq<AuthRequest> {
    seq(|times|, i requires 0 <= i < |times| => AuthRequest(times[i], "otp", client))
  }

  lemma {:induction false} OtpRunTimes(times: seq<int>, client: string)
    ensures OwnTimes(OtpRun(times, client), "otp", client) == times
  {
    if times != [] {
      OtpRunTimes(times[..|times| - 1], client);
      assert OtpRun(times, client)[..|times| - 1] == OtpRun(times[..|times| - 1], client);
    }
  }

  lemma TooManyOtps(cfg: AuthConfig, client: string) returns (run: seq<AuthRequest>)
    requires cfg.otpRequestsPerHour >= 1
    ensures InOrder(run) && AuthPasses(cfg, run, "otp", client, 0, 3_600_000) > cfg.otpRequestsPerHour
  {
    var limit := cfg.otpRequestsPerHour;
    var times := seq(limit, _ => 0) + [60_000];
    LimitAtOnce(limit, 60_000, limit, 3_600_000);
    assert times[..limit] == seq(limit, _ => 0);
    assert Passes(times, 0, 3_600_000, 60_000, limit) == limit + 1;
    run := OtpRun(times, client);
    OtpRunTimes(times, client);
    OwnPasses(cfg, run, "otp", client, 0, 3_600_000);
  }
}
