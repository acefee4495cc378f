/** The token bucket of the rate limiter: the Lua script of consumeToken over one Redis
    hash, with a clock in milliseconds. Redis keeps a key until its deadline, on the same
    clock. */
module TokenBucket {
  import opened Division

  /** The hash with its fields `tokens` and `last_refill`, and the time at which Redis
      drops it. */
  datatype Key = Missing | Bucket(tokens: int, lastRefill: int, deadline: int)

  datatype Reply = Reply(allowed: bool, wait: int)

  datatype Moment = Never | At(time: int)

  /** The window of a rate: 0 for a rate above 1000. */
  function Window(rate: int): int
    requires rate > 0
  {
    1000 / rate
  }

  /** Rounded down: a whole second is never less than `rate` windows, and one millisecond more in
      each would exceed it. */
  lemma WindowIsExact(rate: int)
    requires rate >= 1
    ensures Window(rate) * rate <= 1000 < (Window(rate) + 1) * rate
  {
    assert 1000 == rate * (1000 / rate) + 1000 % rate;
  }

  /** What the middleware lets through to the script. */
  predicate Settings(window: int, burst: int) {
    window >= 0 && burst >= 1
  }

  /** The same without a window of 0. */
  predicate Limits(window: int, burst: int) {
    window >= 1 && burst >= 1
  }

  /** `math.ceil(window * burst / 1000) + 1` seconds. */
  function TtlMillis(window: int, burst: int): int {
    ((window * burst + 999) / 1000 + 1) * 1000
  }

  /** What HMGET finds. */
  function Visible(key: Key, now: int): Key {
    if key.Bucket? && now >= key.deadline then Missing else key
  }

  /** `math.min(burst, tokens + math.floor(elapsed / window))`. In Lua a division by a window
      of 0 yields infinity or no number, and either way the minimum is the burst. */
  function Refill(tokens: int, elapsed: int, window: int, burst: int): int
    requires Settings(window, burst)
  {
    if window == 0 then burst
    else if burst < tokens + elapsed / window then burst
    else tokens + elapsed / window
  }

  /** The script on the key as it is found. EXPIRE runs only when the request is admitted;
      HMSET leaves the deadline alone. */
  function Decide(key: Key, now: int, window: int, burst: int): (Key, Reply)
    requires Settings(window, burst)
  {
    var tokens0 := if key.Missing? then burst else key.tokens;
    var lastRefill := if key.Missing? then now else key.lastRefill;
    var elapsed := now - lastRefill;
    var tokens := Refill(tokens0, elapsed, window, burst);
    if tokens >= 1 then
      (Bucket(tokens - 1, now, now + TtlMillis(window, burst)), Reply(true, 0))
    else
      var deadline := if key.Missing? then now else key.deadline;
      (Bucket(tokens, lastRefill, deadline), Reply(false, window * (1 - tokens) - elapsed % window))
  }

  function Consume(key: Key, now: int, window: int, burst: int): (Key, Reply)
    requires Settings(window, burst)
  {
    Decide(Visible(key, now), now, window, burst)
  }

  // ---------------------------------------------------------------- the script

  class BucketKey {
    var present: bool
    var tokens: int
    var lastRefill: int
    var deadline: int

    ghost function Value(): Key
      reads this
    {
      if present then Bucket(tokens, lastRefill, deadline) else Missing
    }

    constructor ()
      ensures Value() == Missing
    {
      present := false;
      tokens, lastRefill, deadline := 0, 0, 0;
    }

    method ConsumeToken(now: int, rate: int, burst: int) returns (allowed: bool, wait: int)
      requires rate >= 1 && burst >= 1
      modifies this
      ensures Value() == Consume(old(Value()), now, Window(rate), burst).0
      ensures Reply(allowed, wait) == Consume(old(Value()), now, Window(rate), burst).1
    {
      var windowMs := 1000 / rate;
      if present && now >= deadline {
        present := false;
      }
      var tokensNow, refillBase := tokens, lastRefill;
      if !present {
        tokensNow, refillBase := burst, now;
      }
      var elapsed := now - refillBase;
      if windowMs == 0 {
        tokensNow := burst;
      } else {
        var refillTokens := elapsed / windowMs;
        tokensNow := if burst < tokensNow + refillTokens then burst else tokensNow + refillTokens;
      }
      if tokensNow >= 1 {
        tokens, lastRefill := tokensNow - 1, now;
        deadline := now + TtlMillis(windowMs, burst);
        present := true;
        return true, 0;
      } else {
        var waitTime := windowMs * (1 - tokensNow) - elapsed % windowMs;
        tokens, lastRefill := tokensNow, refillBase;
        present := true;
        return false, waitTime;
      }
    }

    /** tokenBucketMiddleware: a limiter without a rate or a burst lets everything pass. */
    method Middleware(now: int, rate: int, burst: int) returns (passed: bool, retryAfter: int)
      modifies this
      ensures rate <= 0 || burst <= 0 ==> passed && Value() == old(Value())
      ensures rate > 0 && burst > 0 ==>
        var (key, reply) := Consume(old(Value()), now, Window(rate), burst);
        Value() == key && passed == reply.allowed && (!passed ==> retryAfter == reply.wait / 1000)
    {
      if rate <= 0 || burst <= 0 {
        return true, 0;
      }
      var allowed, wait := ConsumeToken(now, rate, burst);
      return allowed, wait / 1000;
    }
  }

  // ---------------------------------------------------------------- traces of requests

  predicate Monotone(times: seq<int>) {
    forall i, j :: 0 <= i < j < |times| ==> times[i] <= times[j]
  }

  /** The key after the requests made at the given times. */
  function After(times: seq<int>, window: int, burst: int): Key
    requires Settings(window, burst)
  {
    if times == [] then Missing
    else Consume(After(times[..|times| - 1], window, burst), times[|times| - 1], window, burst).0
  }

  /** The answer to the last of them. */
  function LastReply(times: seq<int>, window: int, burst: int): Reply
    requires Settings(window, burst) && times != []
  {
    Consume(After(times[..|times| - 1], window, burst), times[|times| - 1], window, burst).1
  }

  /** The same key if Redis never dropped it. */
  function ForeverAfter(times: seq<int>, window: int, burst: int): Key
    requires Settings(window, burst)
  {
    if times == [] then Missing
    else Decide(ForeverAfter(times[..|times| - 1], window, burst), times[|times| - 1], window, burst).0
  }

  function ForeverReply(times: seq<int>, window: int, burst: int): Reply
    requires Settings(window, burst) && times != []
  {
    Decide(ForeverAfter(times[..|times| - 1], window, burst), times[|times| - 1], window, burst).1
  }

  /** How many of the requests with a time in [from, to] are admitted. */
  function Admitted(times: seq<int>, from: int, to: int, window: int, burst: int): nat
    requires Settings(window, burst)
  {
    if times == [] then 0
    else
      var t := times[|times| - 1];
      Admitted(times[..|times| - 1], from, to, window, burst)
      + (if LastReply(times, window, burst).allowed && from <= t <= to then 1 else 0)
  }

  /** A bucket that has been used: the deadline lies one time-to-live after the last
      admission, whether or not requests were denied since. */
  predicate KeyInv(key: Key, now: int, window: int, burst: int) {
    key.Bucket? ==>
      && 0 <= key.tokens < burst
      && key.lastRefill <= now
      && key.deadline == key.lastRefill + TtlMillis(window, burst)
  }

  lemma TtlCoversRefill(window: int, burst: int)
    ensures window * burst + 1000 <= TtlMillis(window, burst)
  {
  }

  /** The time to live is the least number of whole seconds in which the whole burst is
      refilled, and one second more. */
  lemma TtlIsExact(rate: int, burst: int)
    requires rate >= 1 && burst >= 1
    ensures var ttl := TtlMillis(1000 / rate, burst);
            ttl % 1000 == 0 && 1000 / rate * burst <= ttl - 1000 < 1000 / rate * burst + 1000
  {
    assert Window(rate) == 1000 / rate;
  }

  /** A key that Redis has dropped would have been full. */
  lemma DroppedMeansFull(key: Key, now: int, window: int, burst: int)
    requires Limits(window, burst) && key.Bucket? && KeyInv(key, now, window, burst) && now >= key.deadline
    ensures Decide(key, now, window, burst) == Decide(Missing, now, window, burst)
  {
    TtlCoversRefill(window, burst);
    DivAtLeast(now - key.lastRefill, window, burst);
    assert 0 / window == 0;
  }

  lemma DecideKeepsInv(key: Key, now: int, window: int, burst: int)
    requires Limits(window, burst) && KeyInv(key, now, window, burst)
    ensures KeyInv(Decide(key, now, window, burst).0, now, window, burst)
    ensures Decide(key, now, window, burst).0.Bucket?
  {
  }

  /** Redis never drops a key whose loss could be seen: on every trace the limiter stores the
      same hash and gives the same answers as one whose key lives forever. */
  lemma {:induction false} ExpiryIsInvisible(times: seq<int>, window: int, burst: int)
    requires Limits(window, burst) && Monotone(times)
    ensures After(times, window, burst) == ForeverAfter(times, window, burst)
    ensures times != [] ==> LastReply(times, window, burst) == ForeverReply(times, window, burst)
    ensures times != [] ==> KeyInv(After(times, window, burst), times[|times| - 1], window, burst)
    ensures times != [] ==> After(times, window, burst).Bucket?
  {
    if times != [] {
      var past, now := times[..|times| - 1], times[|times| - 1];
      ExpiryIsInvisible(past, window, burst);
      var key := After(past, window, burst);
      assert KeyInv(key, now, window, burst);
      if key.Bucket? && now >= key.deadline {
        DroppedMeansFull(key, now, window, burst);
      }
      DecideKeepsInv(key, now, window, burst);
    }
  }

  /** In every reachable state the stored count lies between 0 and the burst. */
  lemma TokensInRange(times: seq<int>, window: int, burst: int)
    requires Limits(window, burst) && Monotone(times) && times != []
    ensures var key := After(times, window, burst); key.Bucket? && 0 <= key.tokens <= burst
  {
    ExpiryIsInvisible(times, window, burst);
  }

  // ---------------------------------------------------------------- the bound

  /** Every admission inside the interval has been paid for, by the burst or by a refill. */
  lemma {:induction false} Paid(times: seq<int>, from: int, to: int, window: int, burst: int)
    requires Limits(window, burst) && Monotone(times) && from <= to
    requires times != [] ==> times[|times| - 1] <= to
    ensures var n := Admitted(times, from, to, window, burst);
            var key := After(times, window, burst);
            n > 0 ==> key.Bucket? && from <= key.lastRefill <= to
                      && n + key.tokens <= burst + (key.lastRefill - from) / window
  {
    if times != [] {
      var past, now := times[..|times| - 1], times[|times| - 1];
      Paid(past, from, to, window, burst);
      ExpiryIsInvisible(past, window, burst);
      ExpiryIsInvisible(times, window, burst);
      var before := After(past, window, burst);
      var n := Admitted(past, from, to, window, burst);
      if LastReply(times, window, burst).allowed && from <= now {
        DivAtLeast(now - from, window, 0);
        if n > 0 {
          FloorsAddUp(before.lastRefill - from, now - before.lastRefill, window);
        }
      }
    }
  }

  /** In any interval the bucket admits at most burst plus one request per whole window. */
  lemma {:induction false} IntervalBound(times: seq<int>, from: int, to: int, window: int, burst: int)
    requires Limits(window, burst) && Monotone(times) && from <= to
    ensures Admitted(times, from, to, window, burst) <= burst + (to - from) / window
  {
    DivAtLeast(to - from, window, 0);
    if times != [] && times[|times| - 1] > to {
      IntervalBound(times[..|times| - 1], from, to, window, burst);
    } else {
      Paid(times, from, to, window, burst);
      ExpiryIsInvisible(times, window, burst);
      var key := After(times, window, burst);
      if Admitted(times, from, to, window, burst) > 0 {
        DivMonotone(key.lastRefill - from, to - from, window);
      }
    }
  }

  /** The promise in terms of the configured rate, requests per second. */
  ghost predicate KeepsRate(rate: int, burst: int)
    requires rate >= 1 && burst >= 1
  {
    forall times: seq<int>, from: int, to: int | Monotone(times) && from <= to ::
      1000 * Admitted(times, from, to, Window(rate), burst) <= 1000 * burst + rate * (to - from)
  }

  /** A fresh bucket admits a burst of requests at once. */
  lemma Instant(key: Key, window: int, burst: int)
    requires Limits(window, burst)
    requires key.Bucket? ==>
               key.lastRefill == 0 && 1 <= key.tokens < burst && key.deadline == TtlMillis(window, burst)
    ensures var (key', reply) := Consume(key, 0, window, burst);
            && reply.allowed
            && key' == Bucket((if key.Missing? then burst else key.tokens) - 1, 0, TtlMillis(window, burst))
  {
  }

  lemma {:induction false} BurstAtOnce(n: nat, window: int, burst: int)
    requires Limits(window, burst) && n <= burst
    ensures var times := seq(n, _ => 0);
            && Admitted(times, 0, window, window, burst) == n
            && After(times, window, burst)
               == if n == 0 then Missing else Bucket(burst - n, 0, TtlMillis(window, burst))
  {
    if n > 0 {
      BurstAtOnce(n - 1, window, burst);
      assert seq(n, _ => 0)[..n - 1] == seq(n - 1, _ => 0);
      Instant(After(seq(n - 1, _ => 0), window, burst), window, burst);
    }
  }

  lemma OneWindowLater(window: int, burst: int)
    requires Limits(window, burst)
    ensures Consume(Bucket(0, 0, TtlMillis(window, burst)), window, window, burst).1.allowed
  {
  }

  lemma BurstThenOneWindow(window: int, burst: int)
    requires Limits(window, burst)
    ensures var times := seq(burst, _ => 0) + [window];
            Monotone(times) && Admitted(times, 0, window, window, burst) == burst + 1
  {
    var times := seq(burst, _ => 0) + [window];
    BurstAtOnce(burst, window, burst);
    assert times[..burst] == seq(burst, _ => 0);
    OneWindowLater(window, burst);
  }

  /** The limiter keeps the configured rate on every trace if and only if the rate divides
      1000; otherwise the window is rounded down and refills too fast, and with a rate above
      1000 it refills at once. */
  lemma KeepsRateIff(rate: int, burst: int)
    requires rate >= 1 && burst >= 1
    ensures KeepsRate(rate, burst) <==> 1000 % rate == 0
  {
    if rate > 1000 {
      var times := seq(burst + 1, _ => 0);
      NoWindowNoLimit(burst + 1, burst);
      assert Window(rate) == 0;
      assert 1000 * Admitted(times, 0, 0, 0, burst) > 1000 * burst + rate * (0 - 0);
    } else if 1000 % rate == 0 {
      KeepsDivisor(rate, burst);
    } else {
      ExceedsOther(rate, burst);
    }
  }

  lemma KeepsDivisor(rate: int, burst: int)
    requires 1 <= rate <= 1000 && burst >= 1 && 1000 % rate == 0
    ensures KeepsRate(rate, burst)
  {
    var window := Window(rate);
    DivAtLeast(1000, rate, 1);
    forall times: seq<int>, from: int, to: int | Monotone(times) && from <= to
      ensures 1000 * Admitted(times, from, to, window, burst) <= 1000 * burst + rate * (to - from)
    {
      IntervalBound(times, from, to, window, burst);
      WindowsAtRate(to - from, window, rate);
    }
  }

  lemma ExceedsOther(rate: int, burst: int)
    requires 1 <= rate <= 1000 && burst >= 1 && 1000 % rate != 0
    ensures !KeepsRate(rate, burst)
  {
    var window := Window(rate);
    WindowTooShort(rate);
    BurstThenOneWindow(window, burst);
    var times := seq(burst, _ => 0) + [window];
    assert 1000 * Admitted(times, 0, window, window, burst) > 1000 * burst + rate * (window - 0);
  }

  lemma WindowTooShort(rate: int)
    requires 1 <= rate <= 1000 && 1000 % rate != 0
    ensures Window(rate) >= 1 && rate * (Window(rate) - 0) < 1000
  {
    DivAtLeast(1000, rate, 1);
    assert 1000 == rate * (1000 / rate) + 1000 % rate;
  }

  /** Without a window every request is admitted. */
  lemma {:induction false} NoWindowNoLimit(n: nat, burst: int)
    requires burst >= 1
    ensures Admitted(seq(n, _ => 0), 0, 0, 0, burst) == n
  {
    if n > 0 {
      NoWindowNoLimit(n - 1, burst);
      assert seq(n, _ => 0)[..n - 1] == seq(n - 1, _ => 0);
    }
  }

  lemma WindowsAtRate(span: int, window: int, rate: int)
    requires span >= 0 && window >= 1 && window * rate == 1000
    ensures 1000 * (span / window) <= rate * span
  {
  }

  // ---------------------------------------------------------------- the wait

  /** After a denial with a wait, and however often it is retried too early, a request is
      admitted if and only if the wait is over. */
  lemma {:induction false} WaitIsExact(times: seq<int>, early: seq<int>, next: int, window: int, burst: int)
    requires Limits(window, burst) && times != [] && Monotone(times + early + [next])
    requires !LastReply(times, window, burst).allowed
    requires forall i :: 0 <= i < |early| ==> early[i] < times[|times| - 1] + LastReply(times, window, burst).wait
    ensures 1 <= LastReply(times, window, burst).wait <= window
    ensures LastReply(times + early + [next], window, burst).allowed
            <==> next >= times[|times| - 1] + LastReply(times, window, burst).wait
    ensures After(times + early, window, burst) == After(times, window, burst)
  {
    var all := times + early;
    assert (all + [next])[..|all|] == all;
    MonotonePrefix(all, [next]);
    MonotonePrefix(times, early);
    DenialLeavesEmpty(times, window, burst);
    if early == [] {
      assert all == times;
    } else {
      var last := |early| - 1;
      assert times + early[..last] + [early[last]] == all;
      WaitIsExact(times, early[..last], early[last], window, burst);
      assert all[..|all| - 1] == times + early[..last];
      DenialLeavesEmpty(all, window, burst);
    }
    ExpiryIsInvisible(all, window, burst);
    ExpiryIsInvisible(all + [next], window, burst);
    EmptyUntilRefill(After(all, window, burst), next, window, burst);
  }

  lemma MonotonePrefix(a: seq<int>, b: seq<int>)
    requires Monotone(a + b)
    ensures Monotone(a)
  {
    forall i, j | 0 <= i < j < |a| ensures a[i] <= a[j] {
      assert (a + b)[i] == a[i] && (a + b)[j] == a[j];
    }
  }

  /** A bucket without tokens admits the next request exactly one window after its last
      admission, and a denial leaves it as it is. */
  lemma EmptyUntilRefill(key: Key, now: int, window: int, burst: int)
    requires Limits(window, burst) && key.Bucket? && key.lastRefill <= now && 0 <= key.tokens
    ensures var (key', reply) := Decide(key, now, window, burst);
            && (reply.allowed <==> key.tokens > 0 || now >= key.lastRefill + window)
            && (!reply.allowed ==> key' == key && reply.wait == key.lastRefill + window - now)
  {
  }

  /** A denied request finds no token, less than a window after the last admission, and
      leaves the key as it was. */
  lemma {:induction false} DenialLeavesEmpty(times: seq<int>, window: int, burst: int)
    requires Limits(window, burst) && Monotone(times) && times != [] && !LastReply(times, window, burst).allowed
    ensures var key, now := After(times, window, burst), times[|times| - 1];
            && key == After(times[..|times| - 1], window, burst)
            && key.Bucket? && key.tokens == 0 && key.lastRefill <= now < key.lastRefill + window
            && LastReply(times, window, burst).wait == key.lastRefill + window - now
  {
    var past, now := times[..|times| - 1], times[|times| - 1];
    ExpiryIsInvisible(past, window, burst);
    ExpiryIsInvisible(times, window, burst);
    var before := After(past, window, burst);
    assert 0 / window == 0;
    EmptyUntilRefill(before, now, window, burst);
  }

  /** A client that waits for whole seconds, rounded down, is admitted if and only if the wait
      was a whole number of seconds. */
  lemma WholeSecondsSufficeIff(times: seq<int>, window: int, burst: int)
    requires Limits(window, burst) && Monotone(times) && times != [] && !LastReply(times, window, burst).allowed
    ensures var wait := LastReply(times, window, burst).wait;
            var retry := times[|times| - 1] + wait / 1000 * 1000;
            LastReply(times + [retry], window, burst).allowed <==> wait % 1000 == 0
  {
    var wait := LastReply(times, window, burst).wait;
    DenialLeavesEmpty(times, window, burst);
    var retry := times[|times| - 1] + wait / 1000 * 1000;
    assert times + [] + [retry] == times + [retry];
    WaitIsExact(times, [], retry, window, burst);
  }

  /** A request of that time was admitted. */
  predicate AdmittedAt(times: seq<int>, at: int, window: int, burst: int)
    requires Settings(window, burst)
  {
    exists i :: 0 <= i < |times| && times[i] == at && LastReply(times[..i + 1], window, burst).allowed
  }

  lemma AdmittedBy(times: seq<int>, at: int, window: int, burst: int)
    requires Settings(window, burst) && times != []
    ensures var past, now := times[..|times| - 1], times[|times| - 1];
            AdmittedAt(times, at, window, burst) <==>
              AdmittedAt(past, at, window, burst) || (now == at && LastReply(times, window, burst).allowed)
  {
    var past := times[..|times| - 1];
    assert times[..|times|] == times;
    assert forall i :: 0 <= i < |past| ==> past[i] == times[i] && past[..i + 1] == times[..i + 1];
    if AdmittedAt(past, at, window, burst) {
      var i :| 0 <= i < |past| && past[i] == at && LastReply(past[..i + 1], window, burst).allowed;
      assert times[i] == at && LastReply(times[..i + 1], window, burst).allowed;
    }
  }

  /** The refill counts from the last admission. */
  lemma {:induction false} RefillsFromAdmission(times: seq<int>, window: int, burst: int)
    requires Limits(window, burst) && Monotone(times) && times != []
    ensures var now := times[|times| - 1];
            AdmittedAt(times, now, window, burst) <==> After(times, window, burst).lastRefill == now
  {
    var past, now := times[..|times| - 1], times[|times| - 1];
    AdmittedBy(times, now, window, burst);
    ExpiryIsInvisible(past, window, burst);
    ExpiryIsInvisible(times, window, burst);
    if past != [] && !LastReply(times, window, burst).allowed {
      RefillsFromAdmission(past, window, burst);
      DenialLeavesEmpty(times, window, burst);
      var before := past[|past| - 1];
      if before < now {
        NotAdmittedLater(past, now, window, burst);
        assert After(past, window, burst).lastRefill <= before;
      }
    }
  }

  lemma NotAdmittedLater(times: seq<int>, at: int, window: int, burst: int)
    requires Settings(window, burst) && Monotone(times) && times != [] && times[|times| - 1] < at
    ensures !AdmittedAt(times, at, window, burst)
  {
  }

  /** The time of the last request that was admitted. */
  function LastAdmission(times: seq<int>, window: int, burst: int): Moment
    requires Settings(window, burst)
  {
    if times == [] then Never
    else if LastReply(times, window, burst).allowed then At(times[|times| - 1])
    else LastAdmission(times[..|times| - 1], window, burst)
  }

  lemma {:induction false} RefillsFromLastAdmission(times: seq<int>, window: int, burst: int)
    requires Limits(window, burst) && Monotone(times) && times != []
    ensures LastAdmission(times, window, burst) == At(After(times, window, burst).lastRefill)
  {
    var past := times[..|times| - 1];
    ExpiryIsInvisible(past, window, burst);
    ExpiryIsInvisible(times, window, burst);
    if !LastReply(times, window, burst).allowed {
      DenialLeavesEmpty(times, window, burst);
      if past != [] {
        RefillsFromLastAdmission(past, window, burst);
      }
    }
  }

  /** For every rate, on every trace and however often the client retries in vain: once a request
      has been denied, the next is admitted if and only if 1000 / rate milliseconds have passed
      since the last admission. */
  lemma ReadmittedIff(times: seq<int>, early: seq<int>, next: int, rate: int, burst: int)
    requires rate >= 1 && burst >= 1 && times != [] && Monotone(times + early + [next])
    requires !LastReply(times, Window(rate), burst).allowed
    requires forall i :: 0 <= i < |early| ==> early[i] < times[|times| - 1] + LastReply(times, Window(rate), burst).wait
    ensures var last := LastAdmission(times, Window(rate), burst);
            && last.At?
            && (LastReply(times + early + [next], Window(rate), burst).allowed <==> next >= last.time + 1000 / rate)
  {
    var window := Window(rate);
    if rate > 1000 {
      AlwaysAdmitted(times, rate, burst);
    } else {
      DivAtLeast(1000, rate, 1);
      MonotonePrefix(times + early, [next]);
      MonotonePrefix(times, early);
      RefillsFromLastAdmission(times, window, burst);
      DenialLeavesEmpty(times, window, burst);
      WaitIsExact(times, early, next, window, burst);
    }
  }

  /** A rate above 1000 limits nothing: every request of every trace is admitted. */
  lemma AlwaysAdmitted(times: seq<int>, rate: int, burst: int)
    requires rate > 1000 && burst >= 1 && times != []
    ensures LastReply(times, Window(rate), burst).allowed
  {
    assert Window(rate) == 0;
  }

  // ---------------------------------------------------------------- the refill

  /** The same time n times over. */
  function AtOnce(at: int, n: nat): seq<int> { seq(n, _ => at) }

  lemma OneMoreAtOnce(times: seq<int>, at: int, n: nat, window: int, burst: int)
    requires Limits(window, burst) && Monotone(times + AtOnce(at, n)) && n >= 1
    ensures var all, most := times + AtOnce(at, n), times + AtOnce(at, n - 1);
            && Monotone(most)
            && (After(all, window, burst), LastReply(all, window, burst))
               == Decide(After(most, window, burst), at, window, burst)
  {
    var all, most := times + AtOnce(at, n), times + AtOnce(at, n - 1);
    assert all == most + [at];
    assert all[..|all| - 1] == most;
    MonotonePrefix(most, [at]);
    ExpiryIsInvisible(most, window, burst);
    ExpiryIsInvisible(all, window, burst);
  }

  /** A request at the moment of the last admission finds what that one left. */
  lemma NoRefillAtOnce(key: Key, now: int, window: int, burst: int)
    requires Limits(window, burst) && key.Bucket? && key.lastRefill == now && 0 <= key.tokens < burst
    ensures var (key', reply) := Decide(key, now, window, burst);
            && (reply.allowed <==> key.tokens >= 1)
            && key'.Bucket? && key'.lastRefill == now
            && key'.tokens == if reply.allowed then key.tokens - 1 else key.tokens
  {
    assert 0 / window == 0;
  }

  /** What a request finds. */
  function Found(key: Key, now: int, window: int, burst: int): int
    requires Limits(window, burst) && key.Bucket?
  {
    var refilled := key.tokens + (now - key.lastRefill) / window;
    if burst < refilled then burst else refilled
  }

  lemma DecideByFound(key: Key, now: int, window: int, burst: int)
    requires Limits(window, burst) && key.Bucket? && key.lastRefill <= now && key.tokens >= 0
    ensures var (key', reply) := Decide(key, now, window, burst);
            var found := Found(key, now, window, burst);
            && (reply.allowed <==> found >= 1)
            && (reply.allowed ==> key'.Bucket? && key'.tokens == found - 1 && key'.lastRefill == now)
            && (!reply.allowed ==> key' == key && found == key.tokens == 0 && now - key.lastRefill < window)
  {
    DivAtLeast(now - key.lastRefill, window, 0);
  }

  /** What n requests at once leave, when the first of them finds `found` tokens. */
  lemma {:induction false} DrainAtOnce(times: seq<int>, at: int, n: nat, found: nat, window: int, burst: int)
    requires Limits(window, burst) && Monotone(times + AtOnce(at, n)) && n >= 1 && 1 <= found <= burst
    requires var (key, reply) := Decide(After(times, window, burst), at, window, burst);
             reply.allowed && key.Bucket? && key.tokens == found - 1 && key.lastRefill == at
    ensures var all := times + AtOnce(at, n);
            && (LastReply(all, window, burst).allowed <==> n <= found)
            && After(all, window, burst).Bucket? && After(all, window, burst).lastRefill == at
            && After(all, window, burst).tokens == if n <= found then found - n else 0
  {
    OneMoreAtOnce(times, at, n, window, burst);
    if n == 1 {
      assert times + AtOnce(at, 0) == times;
    } else {
      DrainAtOnce(times, at, n - 1, found, window, burst);
      NoRefillAtOnce(After(times + AtOnce(at, n - 1), window, burst), at, window, burst);
    }
  }

  /** A fresh client's requests at once are admitted up to the burst, and no further. */
  lemma BurstIsExact(at: int, n: nat, rate: int, burst: int)
    requires 1 <= rate <= 1000 && burst >= 1 && n >= 1
    ensures LastReply(AtOnce(at, n), Window(rate), burst).allowed <==> n <= burst
  {
    DivAtLeast(1000, rate, 1);
    assert [] + AtOnce(at, n) == AtOnce(at, n);
    assert 0 / Window(rate) == 0;
    DrainAtOnce([], at, n, burst, Window(rate), burst);
  }

  lemma {:induction false} StillEmpty(times: seq<int>, at: int, n: nat, window: int, burst: int)
    requires Limits(window, burst) && times != [] && Monotone(times + AtOnce(at, n))
    requires var key := After(times, window, burst);
             key.Bucket? && key.tokens == 0 && key.lastRefill <= at && Found(key, at, window, burst) < 1
    ensures After(times + AtOnce(at, n), window, burst) == After(times, window, burst)
    ensures n >= 1 ==> !LastReply(times + AtOnce(at, n), window, burst).allowed
  {
    if n == 0 {
      assert times + AtOnce(at, 0) == times;
    } else {
      OneMoreAtOnce(times, at, n, window, burst);
      StillEmpty(times, at, n - 1, window, burst);
      DecideByFound(After(times, window, burst), at, window, burst);
    }
  }

  /** The stored count after a trace. */
  function TokensLeft(times: seq<int>, rate: int, burst: int): int
    requires rate >= 1 && burst >= 1
  {
    var key := After(times, Window(rate), burst);
    if key.Bucket? then key.tokens else burst
  }

  /** For every rate and on every trace: requests at once are admitted up to the tokens left and
      one for each whole spell of 1000 / rate milliseconds since the last admission, or up to
      the burst, and no further. */
  lemma RefillIsExact(times: seq<int>, at: int, n: nat, rate: int, burst: int)
    requires 1 <= rate <= 1000 && burst >= 1 && n >= 1 && times != [] && Monotone(times + AtOnce(at, n))
    ensures var last, left := LastAdmission(times, Window(rate), burst), TokensLeft(times, rate, burst);
            && last.At?
            && (LastReply(times + AtOnce(at, n), Window(rate), burst).allowed <==>
                  n <= burst && n <= left + (at - last.time) / (1000 / rate))
  {
    var window := Window(rate);
    DivAtLeast(1000, rate, 1);
    MonotonePrefix(times, AtOnce(at, n));
    ExpiryIsInvisible(times, window, burst);
    RefillsFromLastAdmission(times, window, burst);
    var key := After(times, window, burst);
    assert (times + AtOnce(at, n))[|times|] == at && (times + AtOnce(at, n))[|times| - 1] == times[|times| - 1];
    DecideByFound(key, at, window, burst);
    var found := Found(key, at, window, burst);
    if found >= 1 {
      DrainAtOnce(times, at, n, found, window, burst);
    } else {
      StillEmpty(times, at, n, window, burst);
    }
  }

  /** And the tokens left are the requests that would be admitted at once in the moment of the
      last. */
  lemma TokensLeftAreAdmitted(times: seq<int>, n: nat, rate: int, burst: int)
    requires 1 <= rate <= 1000 && burst >= 1 && n >= 1 && times != [] && Monotone(times)
    ensures LastReply(times + AtOnce(times[|times| - 1], n), Window(rate), burst).allowed <==>
              n <= TokensLeft(times, rate, burst)
  {
    var window, at := Window(rate), times[|times| - 1];
    DivAtLeast(1000, rate, 1);
    ExpiryIsInvisible(times, window, burst);
    assert Monotone(times + AtOnce(at, n));
    RefillIsExact(times, at, n, rate, burst);
    assert 0 / window == 0;
    if !LastReply(times, window, burst).allowed {
      DenialLeavesEmpty(times, window, burst);
      RefillsFromLastAdmission(times, window, burst);
    }
  }

  /** A client that obeys the Retry-After header of a denial is admitted if and only if the
      rate is one request per second and the denial fell in the very millisecond of the last
      admission; the header is 1 in that case and 0 in every other. */
  lemma RetryAfterIsEnoughIff(times: seq<int>, rate: int, burst: int)
    requires rate >= 1 && burst >= 1 && Monotone(times) && times != []
    requires !LastReply(times, Window(rate), burst).allowed
    ensures var now := times[|times| - 1];
            var header := LastReply(times, Window(rate), burst).wait / 1000;
            var enough := rate == 1 && AdmittedAt(times, now, Window(rate), burst);
            && header == (if enough then 1 else 0)
            && (LastReply(times + [now + header * 1000], Window(rate), burst).allowed <==> enough)
  {
    var window := Window(rate);
    if rate <= 1000 {
      DivAtLeast(1000, rate, 1);
      if rate > 1 {
        DivLess(1000, rate, 1000);
      }
      RefillsFromAdmission(times, window, burst);
      DenialLeavesEmpty(times, window, burst);
      WholeSecondsSufficeIff(times, window, burst);
    }
  }

  /** Two requests in one millisecond under a rate of 2 and a burst of 1: the second is denied
      with a header of 0, and so is the retry that obeys it. */
  lemma RetryAfterOfZero()
    ensures Monotone([0, 0]) && Window(2) == 500
    ensures var reply := LastReply([0, 0], Window(2), 1);
            !reply.allowed && reply.wait == 500 && reply.wait / 1000 == 0
    ensures !LastReply([0, 0] + [0], Window(2), 1).allowed
  {
    assert [0][..0] == [] && [0, 0][..1] == [0] && ([0, 0] + [0])[..2] == [0, 0];
    assert After([], 500, 1) == Missing;
    assert After([0], 500, 1) == Bucket(0, 0, TtlMillis(500, 1));
    assert After([0, 0], 500, 1) == After([0], 500, 1);
  }
}
