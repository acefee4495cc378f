/** The token bucket of the limiter against an ideal one that keeps every millisecond of
    credit. The limiter restarts its refill clock on each admission and so forgets the
    fraction of a window that has passed. */
module IdealBucket {
  import opened Division
  import opened TokenBucket

  /** Credit in milliseconds; a request costs one window. */
  datatype Ideal = Fresh | Ideal(credit: int, last: int)

  function IdealDecide(ideal: Ideal, now: int, window: int, burst: int): (Ideal, bool) {
    var full := burst * window;
    var accrued := if ideal.Fresh? then full else ideal.credit + (now - ideal.last);
    var credit := if full < accrued then full else accrued;
    if credit >= window then (Ideal(credit - window, now), true) else (Ideal(credit, now), false)
  }

  function IdealAfter(times: seq<int>, window: int, burst: int): Ideal {
    if times == [] then Fresh
    else IdealDecide(IdealAfter(times[..|times| - 1], window, burst), times[|times| - 1], window, burst).0
  }

  function IdealAdmissions(times: seq<int>, window: int, burst: int): nat {
    if times == [] then 0
    else
      var past, now := times[..|times| - 1], times[|times| - 1];
      IdealAdmissions(past, window, burst)
      + (if IdealDecide(IdealAfter(past, window, burst), now, window, burst).1 then 1 else 0)
  }

  function Admissions(times: seq<int>, window: int, burst: int): nat
    requires Limits(window, burst)
  {
    if times == [] then 0
    else Admissions(times[..|times| - 1], window, burst) + (if LastReply(times, window, burst).allowed then 1 else 0)
  }

  /** The limiter's own credit never exceeds the ideal credit plus what the ideal bucket has
      spent on the admissions it is ahead by. */
  predicate Behind(key: Key, ideal: Ideal, ahead: int, now: int, window: int) {
    && ahead >= 0
    && (key.Missing? <==> ideal.Fresh?)
    && (key.Bucket? ==>
          && ideal.last == now
          && key.lastRefill <= now
          && key.tokens >= 0
          && key.tokens * window + (now - key.lastRefill) <= ideal.credit + ahead * window)
  }

  lemma Scale(a: int, b: int, w: int)
    requires w >= 1
    ensures a <= b ==> a * w <= b * w
    ensures a < b ==> a * w + w <= b * w
  {
    if a <= b {
      assert (b - a) * w >= 0;
    }
    if a < b {
      assert (b - a - 1) * w >= 0;
    }
  }

  lemma RefillCredit(key: Key, now: int, window: int, burst: int)
    requires Limits(window, burst) && key.Bucket? && key.lastRefill <= now
    ensures var credit := Found(key, now, window, burst) * window;
            credit <= burst * window && credit <= key.tokens * window + (now - key.lastRefill)
  {
  }

  lemma Lead(ahead: int, ahead': int, window: int)
    requires window >= 1
    ensures ahead' == ahead ==> ahead' * window == ahead * window
    ensures ahead' == ahead + 1 ==> ahead' * window == ahead * window + window
    ensures ahead' == ahead - 1 ==> ahead' * window == ahead * window - window
    ensures ahead' * window >= 0 ==> ahead' >= 0
    ensures ahead > 0 ==> ahead * window >= window
  {
  }

  /** The simulation: one request keeps the limiter behind. */
  lemma StepStaysBehind(key: Key, ideal: Ideal, ahead: int, earlier: int, now: int, window: int, burst: int)
    requires Limits(window, burst) && earlier <= now && key.Bucket? && Behind(key, ideal, ahead, earlier, window)
    ensures var (key', reply) := Decide(key, now, window, burst);
            var (ideal', idealAllowed) := IdealDecide(ideal, now, window, burst);
            var ahead' := ahead + (if idealAllowed then 1 else 0) - (if reply.allowed then 1 else 0);
            Behind(key', ideal', ahead', now, window)
  {
    var (key', reply) := Decide(key, now, window, burst);
    var (ideal', idealAllowed) := IdealDecide(ideal, now, window, burst);
    var ahead' := ahead + (if idealAllowed then 1 else 0) - (if reply.allowed then 1 else 0);
    var tokens := Found(key, now, window, burst);
    RefillCredit(key, now, window, burst);
    DecideByFound(key, now, window, burst);
    Scale(1, burst, window);
    Lead(ahead, ahead', window);
    Lead(1, tokens, window);
    Lead(tokens, tokens - 1, window);
    SmallFactor(tokens, window);
    CreditBalances(key.tokens * window, tokens * window, key'.tokens * window,
                   earlier - key.lastRefill, now - key'.lastRefill, now - earlier,
                   ideal.credit, ideal'.credit, ahead * window, ahead' * window, burst * window, window,
                   reply.allowed, idealAllowed);
  }

  /** The same step in credit alone, every product by the window named: the limiter's credit
      before the request, after the refill and after the request, the time since its last
      refill, the ideal credit, and the ideal bucket's lead. */
  lemma CreditBalances(own: int, refilled: int, own': int, idle: int, idle': int, elapsed: int,
                       credit: int, credit': int, lead: int, lead': int, full: int, window: int,
                       allowed: bool, idealAllowed: bool)
    requires 1 <= window <= full && (lead == 0 || lead >= window)
    requires elapsed >= 0 && own + idle <= credit + lead
    requires refilled <= full && refilled <= own + idle + elapsed
    requires allowed <==> refilled >= window
    requires allowed ==> own' == refilled - window && idle' == 0
    requires !allowed ==> own' == own == 0 && idle' == idle + elapsed < window
    requires var accrued := if full < credit + elapsed then full else credit + elapsed;
             (idealAllowed <==> accrued >= window) && credit' == if idealAllowed then accrued - window else accrued
    requires lead' == lead + (if idealAllowed then window else 0) - (if allowed then window else 0)
    ensures own' + idle' <= credit' + lead' && lead' >= 0
  {
  }

  lemma FirstIsAdmitted(now: int, window: int, burst: int)
    requires Limits(window, burst)
    ensures Decide(Missing, now, window, burst).1.allowed && IdealDecide(Fresh, now, window, burst).1
    ensures Behind(Decide(Missing, now, window, burst).0, IdealDecide(Fresh, now, window, burst).0, 0, now, window)
  {
  }

  lemma {:induction false} StaysBehind(times: seq<int>, window: int, burst: int)
    requires Limits(window, burst) && Monotone(times)
    ensures times != [] ==>
              Behind(After(times, window, burst), IdealAfter(times, window, burst),
                     IdealAdmissions(times, window, burst) - Admissions(times, window, burst),
                     times[|times| - 1], window)
    ensures Admissions(times, window, burst) <= IdealAdmissions(times, window, burst)
  {
    if times != [] {
      var past, now := times[..|times| - 1], times[|times| - 1];
      StaysBehind(past, window, burst);
      ExpiryIsInvisible(past, window, burst);
      ExpiryIsInvisible(times, window, burst);
      if past == [] {
        FirstIsAdmitted(now, window, burst);
      } else {
        var ahead := IdealAdmissions(past, window, burst) - Admissions(past, window, burst);
        StepStaysBehind(After(past, window, burst), IdealAfter(past, window, burst), ahead,
                        past[|past| - 1], now, window, burst);
      }
    }
  }

  /** On every trace, and so after every prefix of one, the limiter has admitted at most as
      many requests as the ideal bucket. */
  lemma NeverMoreThanIdeal(times: seq<int>, n: nat, window: int, burst: int)
    requires Limits(window, burst) && Monotone(times) && n <= |times|
    ensures Admissions(times[..n], window, burst) <= IdealAdmissions(times[..n], window, burst)
  {
    StaysBehind(times[..n], window, burst);
  }

  lemma OneMore(past: seq<int>, now: int, window: int, burst: int)
    requires Limits(window, burst)
    ensures var (key, reply) := Consume(After(past, window, burst), now, window, burst);
            && After(past + [now], window, burst) == key
            && Admissions(past + [now], window, burst)
               == Admissions(past, window, burst) + (if reply.allowed then 1 else 0)
    ensures var (ideal, allowed) := IdealDecide(IdealAfter(past, window, burst), now, window, burst);
            && IdealAfter(past + [now], window, burst) == ideal
            && IdealAdmissions(past + [now], window, burst)
               == IdealAdmissions(past, window, burst) + (if allowed then 1 else 0)
  {
  }

  /** The bound is not an equality: two tokens, a window of two milliseconds, and the
      millisecond lost at time 3 costs the request at time 4. */
  lemma LostFraction()
    ensures var times := [0] + [0] + [3] + [4];
            Admissions(times, 2, 2) == 3 && IdealAdmissions(times, 2, 2) == 4
  {
    OneMore([], 0, 2, 2);
    assert [] + [0] == [0];
    OneMore([0], 0, 2, 2);
    OneMore([0] + [0], 3, 2, 2);
    OneMore([0] + [0] + [3], 4, 2, 2);
  }
}
