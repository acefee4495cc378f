# Verification of the exchange server's protocols and arithmetic

This project models seven parts of the server and proves what they keep over every run,
every interleaving or every input:

- the **WebSocket hub** (`Channels.dfy`, `Hub.dfy`, `HubSafety.dfy`, `HubLoops.dfy`,
  `HubWait.dfy`, `HubShutdown.dfy`, `HubProgress.dfy`, `HubArrivals.dfy`, `HubReuse.dfy`,
  `HubHandlers.dfy`): a transition system in which each goroutine has a program counter and one
  step is one access to the client map, its lock, a client's channel or connection, the wait
  group or the shutdown channel. A run-time panic is a state from which no step leaves, also
  where the HTTP server would recover it. The handler's own loops also stand as methods of a
  class over mutable clients;
- the **rate limiter** (`Division.dfy`, `TokenBucket.dfy`, `IdealBucket.dfy`,
  `CounterLimiter.dfy`): the token-bucket script and the counter with expiry, over arbitrary
  traces of request times;
- **market rounding and order validation** (`Decimals.dfy`, `Market.dfy`), with both
  roundings that a price goes through;
- the **balance ledger** (`Balance.dfy`): a class, and runs of its operations;
- **one-time passwords** (`Redis.dfy`, `Otp.dfy`), **logout** (`Revocation.dfy`) and the
  **currency cache** (`Currencies.dfy`): machines over Redis keys with a time to live.

Each class method is proved equal to a step function; the theorems are about runs of steps.

## Assumptions

- Redis and the database: commands succeed, each handler is one step, all times come from one
  clock in milliseconds that does not run backwards, and a key is gone from its deadline on.
  Redis itself still shows a key in the millisecond of its deadline; where a statement gives
  the exact moment at which an expiry takes effect, Redis may be that one millisecond later.
  The numbers of the script stay below 2^53, where Lua's doubles are exact.
- The decimal library (shopspring/decimal v1.2.0): Add, Sub, Mul and Cmp are exact, Div rounds
  the quotient half away from zero at 16 places, Round(0) rounds half away from zero. Decimals
  are modelled as exact real numbers.
- The hub: I/O calls return, and writing a frame to a closed connection fails when the frame is
  flushed. A reader may still receive frames from a closed connection. The read-write lock
  gives no order among those who wait for it. The wait group is that of Go's `sync` package: a
  waiter that is let go looks at the counter again and panics if it is not zero, and an Add
  panics that finds the counter at zero while the waiter is still counted.
- Tokens: a signed token is accepted until its `exp` (section 4.1.4 of RFC 7519), no token
  begins with `Bearer `, and the hash behind `tokenKey` has no collisions.
- Fresh uuids for one-time passwords are distinct and in the canonical form, without a colon; the
  codes sent out hold no colon either, being digits (`Otp.GenerateOTP`).

## What turned out otherwise than named or commented

- `internal/domain/market/market.go:120` says "Round to nearest tick". `Market.NotAlwaysNearest`
  gives a price for which it is not, `Market.NearestIff` the exact condition, and
  `Market.RoundingError` with `Market.RoundingErrorIsMet` the exact bound.
- `fixedWindowMiddleware` renews the expiry on every request, so its window is not fixed: the
  counter belongs to a session that ends with a pause (`CounterLimiter.CountIsPosition`).
- The hourly OTP limit is enforced with a window of one minute (`CounterLimiter.AuthLimits`).
- A rate is kept exactly if it divides 1000; above 1000 nothing is limited
  (`TokenBucket.KeepsRateIff`).
- The Retry-After header rounds the wait down to whole seconds. For every rate above 1 it is 0,
  and obeying it is never enough (`TokenBucket.RetryAfterIsEnoughIff`;
  `TokenBucket.RetryAfterOfZero` shows such a denial).
- Shutdown can panic although it is called once: a client that is accepted but not yet past its
  `Wg.Add(1)` may add to the wait group just as the last pump lets the waiter go
  (`HubReuse.ReusePanics`). `HubReuse.NoReuseIff` gives the exact condition under which it
  cannot. `cmd/server/main.go:133` calls Shutdown while the HTTP server still accepts clients,
  and then it can happen at any time until the wait is over (`HubReuse.OpenServerCanPanicIff`).
- Shutdown may report success although a pump starts afterwards, as in the run of
  `HubReuse.PumpStartsAfterSuccess`. Without new arrivals its success lasts exactly if every
  client accepted before the call is past its `Wg.Add(1)` at the call
  (`HubReuse.SuccessOfCallLastsIff`); with clients still arriving it never lasts
  (`HubReuse.OpenSuccessLastsIff`).
- A second call of Shutdown panics (`HubSafety.NoPanic`); main calls it once.
- A retry limit on one-time passwords holds only if they live at most 24 hours
  (`Otp.BoundsGuessesIff`).
- Logout of a token without an expiry lasts 24 hours, and logout without a Redis client does
  nothing (`Revocation.NeverAcceptedIff`).
- A token of a key that is registered but not current is accepted by JWTMiddleware
  (`internal/auth/keys.go:116-141`) and cannot be logged out (`internal/auth/logout.go:25-30`): it
  is accepted until it expires (`Revocation.OldKeyAcceptedIff`).
- The blacklist knows strings, not tokens. The jwt library (v5.3.1, without its strict decoding)
  ignores the trailing bits of the last base64url character, so a token has several spellings
  with the same claims; a logout revokes the one that it was given, and another is accepted
  as before (`Revocation.OtherSpellingAccepted`).
- The currency cache is keyed by the uuid as the request spells it, the table by its value: a
  row deleted under another spelling stays in the cache (`Currencies.CacheSoundIff`). A create
  and an update cache the id from the request, not that of the row
  (`Currencies.WriteMatchesLoadIff`).

## Model

| member | source | states |
|---|---|---|
| HubSafety.NextKeepsInv | internal/handlers/socket/handler.go:71-122 | every step of every goroutine keeps the invariant that ties program counters, client map, lock holders, channels and wait group together |
| HubSafety.NoPanic | internal/handlers/socket/handler.go:84-122 | over every interleaving the server panics iff Shutdown is called a second time or the wait group is used again while its waiter leaves: no send on a closed channel, no double close of a client channel, no negative wait group, no read past a close |
| HubSafety.WaiterFindsZeroIff | internal/handlers/socket/handler.go:384-388 | a waiter let go by the Done that reached zero finds the counter at zero iff as many Dones as Adds came in between, and panics otherwise |
| HubSafety.MapChangesUnderLock | internal/handlers/socket/handler.go:94-104 | the client map changes only under the write lock, while no broadcast iterates it |
| HubSafety.Fifo | internal/handlers/socket/handler.go:78-82 | in every reachable state the accepted messages are those taken followed by those buffered, in order, and at most 256 are buffered |
| HubSafety.HistoryOnlyGrows | internal/handlers/socket/handler.go:160-178 | what a channel has accepted and its pump has taken or written stays so for the rest of the run, and a closed connection stays closed |
| HubSafety.WrittenInOrder | internal/handlers/socket/handler.go:162-178 | what is written to a connection is a prefix of what its channel accepted, in order and without a gap; a pump at its select has written all but what is buffered |
| HubSafety.DrainNeverBlocks | internal/handlers/socket/handler.go:175-178 | the inner loop of writePump is never blocked and never reads a zero value, even if the channel closes meanwhile: it takes the next accepted message |
| HubSafety.CloseLosesNothing | internal/handlers/socket/handler.go:162-167 | a pump that leaves because its channel is closed has taken and written every message ever accepted |
| HubSafety.BroadcastDeliversOrFull | internal/handlers/socket/handler.go:249-260 | a visit of Broadcast never panics, reaches a client still in the map, and delivers or finds 256 messages waiting |
| HubProgress.PumpLeavesIff | internal/handlers/socket/handler.go:160-193 | over every run a running writePump stops in a step iff it sees its channel closed and empty, sees the shutdown, or an I/O call of it fails |
| HubProgress.GonePumpLeft | internal/handlers/socket/handler.go:160-193 | a pump that is about to call Done, or has, went one of those three ways at an earlier step |
| HubProgress.PumpGoesOn | internal/handlers/socket/handler.go:162-188 | in every reachable state a pump at its select can ping and, where messages wait, take the oldest; it then writes it and as many as wait, and after a flush or a ping that succeeds it is back at its select |
| HubProgress.PumpCanLeave | internal/handlers/socket/handler.go:155-158 | each of the three ways out can be taken where its cause is there, and then Done lowers the wait group by one and nothing else of any client changes |
| HubProgress.EverythingIsWritten | internal/handlers/socket/handler.go:160-188 | from every reachable state a client with a running pump and an open connection, shutdown or not, is written every message its channel has accepted, by steps of its pump alone whose I/O succeeds |
| HubProgress.ReaderLeavesIff | internal/handlers/socket/handler.go:131-150 | over every run a client stops being served in a step iff its read fails or its reader sees the shutdown |
| HubProgress.ReaderGoesOn | internal/handlers/socket/handler.go:131-148 | without a shutdown the reader reads; a frame that is no ping changes nothing; the answer to a ping is accepted unless 256 messages wait |
| HubProgress.ReaderBlockedIff | internal/handlers/socket/handler.go:94-108 | a reader that has not returned is blocked iff it is about to lock the map and the lock is held |
| HubProgress.PumpBlockedIff | internal/handlers/socket/handler.go:153-188 | a pump is blocked for every input iff it has not started or has returned |
| HubProgress.TaskBlockedIff | internal/handlers/socket/handler.go:249-260 | a broadcasting goroutine is blocked iff it has ended or wants the lock while a writer holds it |
| HubProgress.TaskGoesOn | internal/handlers/socket/handler.go:249-260 | a broadcast begins with the message it is given, has all clients of the map to visit once it holds the lock, and gives the lock back when none is left |
| HubProgress.ShutdownBlockedIff | internal/handlers/socket/handler.go:376-396 | once called, Shutdown is blocked iff it wants the lock and somebody holds it; it closes what the map holds, reports success where the wait is over, and may give up at any time of its wait |
| HubProgress.WaiterBlockedIff | internal/handlers/socket/handler.go:384-388 | the waiting goroutine runs from when the lock is let go and is blocked before its return only while somebody is counted |
| HubProgress.AlwaysOpen | internal/handlers/socket/handler.go:71-88 | in every reachable state a client may connect, with an open and empty channel, a task start, and Shutdown be called, which panics iff it was called before |
| HubProgress.ClientIsServed | internal/handlers/socket/handler.go:84-91 | where the lock is free, five steps of an accepted client put it in the map, count it and start both its pumps |
| HubProgress.ClientIsRemoved | internal/handlers/socket/handler.go:101-108 | where the lock is free, five steps of a client that leaves take it out of the map and close its channel and its connection |
| HubProgress.OthersTouch | internal/handlers/socket/handler.go:249-260 | a client changes only by its own two pumps, by a visit of Broadcast, which offers it the message, or by Shutdown, which closes its connection |
| HubLoops.BroadcastReachesEveryone | internal/handlers/socket/handler.go:249-260 | a broadcast that runs to its end, among any steps of others, visits exactly the clients that were in the map when it took the lock, each once |
| HubSafety.WaitGroupIsExact | internal/handlers/socket/handler.go:88-91 | the wait group equals the number of pumps between Add and Done plus the consumers that have not returned |
| HubLoops.ShutdownClosesConnections | internal/handlers/socket/handler.go:377-382 | when Shutdown lets go of the lock, the connection of every client in the map is closed, for the rest of the run |
| HubWait.QuietTailSafe | internal/handlers/socket/handler.go:84-91 | where it is safe to wait (every accepted client past its Add, or one that finds the counter at zero before the wait), no continuation without new clients, consumers and Shutdown calls panics, and it stays safe |
| HubShutdown.TailDecreases | internal/handlers/socket/handler.go:376-396 | after Shutdown began, every step in which nothing new arrives lowers a measure; it panics iff it uses the wait group again while its waiter leaves, and never where it was safe to wait |
| HubShutdown.SomeoneMoves | internal/handlers/socket/handler.go:376-390 | while the wait group is above zero some goroutine can move: there is no deadlock over the lock or a channel |
| HubShutdown.ShutdownForcesZero | internal/handlers/socket/handler.go:376-396 | from every reachable state after Shutdown began, under every schedule, the continuation is bounded and ends only with the wait group at zero, the wait over and Shutdown returned, or with that panic; never with it where it was safe to wait |
| HubArrivals.ArrivalsBoundTheEnd | internal/handlers/socket/handler.go:376-396 | from every reachable state after Shutdown began, a continuation with n new clients, consumers, broadcasts and ticks is bounded by n and the state, and where only arrivals continue it the wait is over and Shutdown has returned, or the server has panicked: only arrivals without end keep it from its end |
| HubReuse.NoReuseIff | internal/handlers/socket/handler.go:84-91 | in every reachable state after Shutdown began, no continuation without new arrivals panics iff it is safe to wait: wherever it is not, some schedule does panic |
| HubReuse.OpenServerCanPanicIff | cmd/server/main.go:133-143 | while clients may still arrive, some continuation panics iff the wait is not over |
| HubReuse.ReusePanics | internal/handlers/socket/handler.go:384-388 | a run with one Shutdown and two clients registered before it that ends in the panic of the waiter |
| HubReuse.SuccessLastsIff | internal/handlers/socket/handler.go:376-396 | in every reachable state after Shutdown began, no pump or consumer is counted once Shutdown has reported success, without new arrivals, iff every accepted client is past its Add, and past its Done if the wait is over, or Shutdown has given up |
| HubReuse.SuccessOfCallLastsIff | internal/handlers/socket/handler.go:376-377 | seen from the call: a success of Shutdown lasts, without new arrivals, iff no client is before its Add in the state in which Shutdown is called |
| HubReuse.OpenSuccessLastsIff | cmd/server/main.go:133-143 | while clients may still arrive, no success of Shutdown lasts that has been or can still be reported |
| HubReuse.SuccessMeansZero | internal/handlers/socket/handler.go:384-392 | Shutdown reports success only after a moment of its wait in which no pump and no consumer was counted |
| HubReuse.PumpStartsAfterSuccess | internal/handlers/socket/handler.go:384-392 | a run with one Shutdown that reports success, after which a client registered before the call is counted and its pump starts |
| HubHandlers.WebSocketHandler.UnregisterClient | internal/handlers/socket/handler.go:101-108 | removes the client, closes its channel without losing what is buffered, and closes its connection |
| HubHandlers.WebSocketHandler.Broadcast | internal/handlers/socket/handler.go:249-260 | every client in the map is offered the message exactly once, in whatever order they are visited, and no other client changes |
| HubHandlers.WebSocketHandler.WriteFrame | internal/handlers/socket/handler.go:169-178 | one frame carries exactly what was buffered, in order, and leaves the buffer empty |
| HubHandlers.WebSocketHandler.CloseConnections | internal/handlers/socket/handler.go:377-381 | closes the shutdown channel and the connection of every client in the map |
| HubHandlers.SweepOffersOnce | internal/handlers/socket/handler.go:253-259 | the visits of one broadcast in the transition system, in any order, have the effect of the loop |
| TokenBucket.BucketKey.ConsumeToken | internal/middleware/ratelimit.go:108-152 | the script, statement by statement, computes the step function on the stored hash |
| TokenBucket.BucketKey.Middleware | internal/middleware/ratelimit.go:65-84 | lets all pass without touching the store when rate or burst is not positive; otherwise passes iff a token was taken and reports the wait |
| TokenBucket.ExpiryIsInvisible | internal/middleware/ratelimit.go:123-140 | on every trace the key that Redis drops stores and answers the same as one that lives forever, though a denial renews nothing |
| TokenBucket.TokensInRange | internal/middleware/ratelimit.go:128-134 | the stored count lies between 0 and the burst in every reachable state |
| TokenBucket.IntervalBound | internal/middleware/ratelimit.go:128-136 | any interval sees at most burst plus one admission per whole window |
| TokenBucket.KeepsRateIff | internal/middleware/ratelimit.go:108-132 | at most burst plus rate requests per second, on all traces and intervals, iff the rate divides 1000 |
| TokenBucket.WaitIsExact | internal/middleware/ratelimit.go:137-141 | the wait of a denial is between 1 and the window, and after any retries made too early the next request is admitted iff the wait is over |
| TokenBucket.RetryAfterIsEnoughIff | internal/middleware/ratelimit.go:76-76 | for every rate: a client that obeys the Retry-After header is admitted iff the rate is 1 and the denial fell in the millisecond of the last admission; otherwise the header is 0 |
| TokenBucket.RetryAfterOfZero | internal/middleware/ratelimit.go:76-76 | a denial whose header is 0, and the retry that obeys it and is denied |
| TokenBucket.WindowIsExact | internal/middleware/ratelimit.go:110-110 | for every rate, rate windows fit into a second and would not if each were a millisecond longer |
| TokenBucket.TtlIsExact | internal/middleware/ratelimit.go:136-136 | the time to live is the least number of whole seconds that refills the burst, and one more |
| TokenBucket.ReadmittedIff | internal/middleware/ratelimit.go:110-141 | for every rate and trace, however often it is retried in vain: after a denial the next request is admitted iff 1000 / rate ms have passed since the last admission |
| TokenBucket.AlwaysAdmitted | internal/middleware/ratelimit.go:110-132 | for a rate above 1000 every request of every trace is admitted |
| TokenBucket.BurstIsExact | internal/middleware/ratelimit.go:123-136 | of a fresh client's requests at once exactly the first burst are admitted |
| TokenBucket.RefillIsExact | internal/middleware/ratelimit.go:128-136 | on every trace the n-th of requests at once is admitted iff n is at most the burst and at most the tokens left plus one for each whole 1000 / rate ms since the last admission |
| TokenBucket.TokensLeftAreAdmitted | internal/middleware/ratelimit.go:128-136 | the tokens left are the number of requests that would be admitted at once in the moment of the last |
| IdealBucket.StepStaysBehind | internal/middleware/ratelimit.go:128-140 | the simulation invariant between the bucket and the ideal one is kept by a request |
| IdealBucket.NeverMoreThanIdeal | internal/middleware/ratelimit.go:119-141 | on every trace and after every prefix the bucket has admitted at most as many requests as an ideal bucket that keeps every millisecond |
| IdealBucket.LostFraction | internal/middleware/ratelimit.go:128-134 | a trace on which it admits strictly fewer |
| CounterLimiter.CounterKey.IncrementCounter | internal/middleware/ratelimit.go:154-168 | counts on from the live counter or from nothing, and renews the whole window |
| CounterLimiter.CounterKey.Middleware | internal/middleware/ratelimit.go:86-106 | lets all pass without touching the store when limit or burst is not positive; otherwise counts, rejects iff the count exceeds the limit, and says what remains or how long the window is |
| CounterLimiter.CountIsPosition | internal/middleware/ratelimit.go:154-168 | the count is the request's place in its session, so it starts again exactly after a pause of at least a window |
| CounterLimiter.NeverReadmitted | internal/middleware/ratelimit.go:92-101 | a rejected client that never pauses for a window is rejected ever after |
| CounterLimiter.SpanBound | internal/middleware/ratelimit.go:86-106 | an interval sees at most the limit, and as many again for each whole window in it |
| CounterLimiter.KeepsLimitIff | internal/middleware/ratelimit.go:86-106 | the limit holds over all spans of a length, on all traces, iff the length is below the window |
| CounterLimiter.AuthAnswerIs | internal/middleware/ratelimit.go:42-63 | over every run of requests of any clients and actions, each is answered by its place in the session of its own client and action under the limit of that action, and is rejected for 60 seconds iff the place exceeds it; an action without a positive limit is not limited |
| CounterLimiter.AuthLimits | internal/middleware/ratelimit.go:42-63 | over every run of requests of any clients and actions the login limit holds for each client over every span shorter than a minute; a run of one client passes more than the hourly OTP limit within an hour |
| Market.FixedIffOnGrid | internal/domain/market/market.go:114-136 | rounding yields a multiple of the step, and leaves a number alone iff it is one: the 16-place division neither moves a multiple nor passes anything else |
| Market.RoundingIsIdempotent | internal/domain/market/market.go:114-136 | rounding twice is rounding once, for every step |
| Market.RoundingIsOdd | internal/domain/market/market.go:114-136 | rounding the negation negates the result, for every step |
| Market.RoundingIsMonotone | internal/domain/market/market.go:114-136 | rounding keeps the order, for every non-negative step |
| Market.RoundingError | internal/domain/market/market.go:114-124 | the error is at most 0.50000000000000005 of a step |
| Market.RoundingErrorIsMet | internal/domain/market/market.go:114-124 | for every step some number is off by exactly that much |
| Market.RoundedByFraction | internal/domain/market/market.go:114-124 | a figure that is not negative goes down to whole steps iff the rest is below 0.49999999999999995 of a step |
| Decimals.TwoThirds | internal/domain/market/market.go:121-121 | two divided by three is 0.6666666666666667: 16 places, rounded |
| Market.LastPlaceThatCounts | internal/domain/market/market.go:121-121 | with tick 1 the price 0.4999999999999999 goes to 0, and 0.49999999999999995 to 1 |
| Market.NearestIff | internal/domain/market/market.go:120-122 | the result is a nearest multiple iff the ratio's magnitude does not lie within 5·10^-17 below a half-integer |
| Market.NotAlwaysNearest | internal/domain/market/market.go:120-122 | 0.499999999999999999 with tick 1 goes to 1, which is not nearest |
| Decimals.TwiceIsOnceIff | internal/domain/market/market.go:121-122 | division at 16 places followed by rounding equals rounding the exact ratio iff the ratio is not just below a half-integer |
| Market.RefusedWithFirstBroken | internal/domain/market/market.go:139-178 | an order is refused with an error iff that is the first rule it breaks, the rules being exact multiples and products |
| Market.LimitAcceptedIff | internal/domain/market/market.go:139-178 | a limit or stop-limit order is accepted iff active, within size bounds, positive price, exact multiples of tick and lot, notional reached |
| Market.OtherAcceptedIff | internal/domain/market/market.go:139-178 | a market or stop order is accepted iff active, within size bounds and a multiple of the lot |
| Market.RoundedFiguresArePrecise | internal/domain/market/market.go:156-175 | an order of rounded figures is never refused for precision |
| Balance.Balance.LockAmount | internal/domain/balance/balance.go:37-49 | error and whole new state as the step function gives them |
| Balance.Balance.UnlockAmount | internal/domain/balance/balance.go:52-64 | error and whole new state as the step function gives them |
| Balance.Balance.AddAvailable | internal/domain/balance/balance.go:67-75 | error and whole new state as the step function gives them |
| Balance.Balance.AddLocked | internal/domain/balance/balance.go:78-86 | error and whole new state as the step function gives them |
| Balance.Balance.AddOnChain | internal/domain/balance/balance.go:89-97 | error and whole new state as the step function gives them |
| Balance.Balance.AddPendingDeposit | internal/domain/balance/balance.go:100-108 | error and whole new state as the step function gives them |
| Balance.Balance.ConfirmDeposit | internal/domain/balance/balance.go:111-123 | error and whole new state as the step function gives them |
| Balance.Balance.SettleWithdrawal | internal/domain/balance/balance.go:126-137 | error and whole new state as the step function gives them |
| Balance.Balance.CanTrade | internal/domain/balance/balance.go:145-152 | for an amount that is not negative it holds iff LockAmount would succeed; a negative one may pass it and is refused by LockAmount |
| Balance.RefusedIff | internal/domain/balance/balance.go:37-137 | an operation is refused iff its amount is negative or it would make a component negative, and the error names that component |
| Balance.RunStaysConsistent | internal/domain/balance/balance.go:37-142 | over every run all components stay non-negative and the total equals their sum |
| Balance.ComponentsAreAccountedFor | internal/domain/balance/balance.go:37-137 | each component is its start plus the successful movements into it minus those out of it |
| Balance.TotalIsAccountedFor | internal/domain/balance/balance.go:37-142 | the total is its start plus successful credits minus settled withdrawals |
| Balance.TradableIsNeverDebited | internal/domain/balance/balance.go:37-137 | available plus locked is its start plus the credits made to it: no operation debits it |
| Balance.TradableNeverFalls | internal/domain/balance/balance.go:37-137 | available plus locked never falls between two moments of a run |
| Balance.VersionCounts | internal/domain/balance/balance.go:37-137 | the version counts the successful operations |
| Balance.EqualVersionsEqualStates | internal/domain/balance/balance.go:26-27 | along a run equal versions mean equal states |
| Balance.LocksInAnyOrder | internal/domain/balance/balance.go:37-49 | a list of locks all succeed iff their sum is available, in any order, with the effect of one lock of the sum apart from the version |
| Balance.UnlockUndoesLock | internal/domain/balance/balance.go:37-64 | unlocking what was locked restores all but the version |
| Otp.Handler.RequestOTP | internal/handlers/public/auth.go:63-112 | stores the code and a fresh count, unless the contact is not recognised or not encrypted |
| Otp.Handler.IncrementBlacklistAttempts | internal/handlers/public/auth.go:244-253 | one more than the live count, remembered for 24 hours |
| Otp.Handler.VerifyOTP | internal/handlers/public/auth.go:114-163 | answer and new store as the step function gives them, on every path including a record that does not parse or decrypt |
| Otp.GenerateOTP | internal/handlers/public/auth.go:264-275 | one decimal digit for each random byte, and nothing if the random source fails |
| Otp.CodeKeyInjective | internal/handlers/public/auth.go:82-82 | keys of different uuids or codes differ |
| Otp.AnswerIff | internal/handlers/public/auth.go:114-163 | over every run each answer follows from the events before it: a try that is well formed and below the limit is answered "wrong code" iff no event issued exactly that uuid and code that lives and is unspent, and otherwise by how the record reads; the record is never that of another uuid |
| Otp.CountIsFailures | internal/handlers/public/auth.go:137-143 | over every run the count in Redis is the number of tries for the uuid that missed, by the events, since its last request or redemption, counted back until 24 hours passed without one |
| Otp.RedeemedIff | internal/handlers/public/auth.go:130-163 | over every run and under any settings a try that presents an issued password redeems it iff its record reads well, it is unspent, it lives and fewer than RetryLimit failures are remembered for its uuid |
| Otp.RedeemedInADayIff | internal/handlers/public/auth.go:130-163 | if passwords live at most 24 hours, the remembered failures are all the wrong codes since the issue |
| Otp.RedeemedWhileItLives | internal/handlers/public/auth.go:137-143 | under any settings it is redeemed only unspent and within its time to live |
| Otp.RedeemedAtMostOnce | internal/handlers/public/auth.go:162-163 | under any settings it is redeemed at most once |
| Otp.NotBeforeIssue | internal/handlers/public/auth.go:137-154 | nobody redeems anything for a uuid before it is issued |
| Otp.BlockedIff | internal/handlers/public/auth.go:130-134 | a well-formed try is turned away before the lookup iff the tries that missed since the uuid's last request or redemption, counted back until 24 hours passed without one, have reached the limit |
| Otp.BoundsGuessesIff | internal/handlers/public/auth.go:130-143 | at most RetryLimit tries for a password's uuid reach the lookup and miss while it can still be redeemed, on all runs, iff it lives at most 24 hours or no try is allowed at all |
| Revocation.TokenBlacklist.AddTokenToBlacklist | internal/auth/blacklist.go:29-39 | writes the entry until the expiry, or nothing without a client or when it has passed |
| Revocation.TokenBlacklist.IsTokenBlacklisted | internal/auth/blacklist.go:41-54 | true iff the entry is there |
| Revocation.TokenBlacklist.LogoutHandler | internal/auth/logout.go:13-50 | reply and new store as the step function gives them |
| Revocation.LogoutIff | internal/auth/logout.go:14-50 | whatever is stored, a header is answered with a logout iff it is an unexpired token of the current key, with or without "Bearer " before it, and otherwise nothing changes |
| Revocation.AcceptedIff | internal/auth/middleware.go:12-139 | after any run of logouts a middleware accepts a header iff it is a token of the keys that it trusts (registered for JWTMiddleware, current for the other two), unexpired, with a role that it admits (any; admin; user or admin), and that very string is not revoked |
| Revocation.RevokedForGoodIff | internal/auth/logout.go:36-50 | after any run of logouts an unexpired token is never accepted again, whoever logs out later, iff there is a Redis client, it has an expiry, and that very string was logged out |
| Revocation.NeverAcceptedIff | internal/auth/logout.go:36-50 | after a successful logout no middleware ever accepts the token again, whoever logs out in between, iff there is a Redis client and the token has an expiry |
| Revocation.NoExpiryAcceptedIff | internal/auth/logout.go:36-41 | over every run of logouts a token without an expiry is accepted iff it was not logged out in the last 24 hours |
| Revocation.OldKeyAcceptedIff | internal/auth/keys.go:116-141 | after every run of logouts JWTMiddleware accepts a token of a registered key that is not the current one iff it has not expired |
| Revocation.OtherSpellingAccepted | internal/auth/blacklist.go:24-27 | a string with the claims of a current token, not logged out itself, is accepted after any run of logouts iff the token has not expired and has a role that the middleware admits |
| Currencies.AdminHandler.CreateCurrency | internal/handlers/admin/currencies.go:71-118 | table and cache as the step function gives them |
| Currencies.AdminHandler.UpdateCurrency | internal/handlers/admin/currencies.go:120-218 | the field-by-field overwriting equals the merge; table and cache as the step function gives them |
| Currencies.AdminHandler.DeleteCurrency | internal/handlers/admin/currencies.go:220-265 | marks the live row and drops the entry under the request's text |
| Currencies.AdminHandler.LoadAndCacheCurrencies | internal/handlers/admin/currencies.go:317-343 | whatever the order of the rows, exactly the approved live rows are written over the cache |
| Currencies.AdminHandler.CleanupBaseDefinitions | internal/handlers/admin/currencies.go:267-285 | whatever the order of the scan, the cache is empty afterwards |
| Currencies.CacheSoundIff | internal/handlers/admin/currencies.go:71-315 | on all runs and at all times each cached currency names a live row and agrees with it on status and info, iff requests spell uuids canonically |
| Currencies.CacheShows | internal/handlers/admin/currencies.go:71-343 | over every run, at every time and under every key the cache shows what was last written there less than 24 hours ago and not deleted by that text or cleaned up since; what is refused or names no live row writes nothing |
| Currencies.RowIsCreatedIff | internal/handlers/admin/currencies.go:71-118 | a row is in the table iff the database accepted its creation |
| Currencies.CleanupThenLoad | internal/handlers/admin/currencies.go:267-343 | after a cleanup and a load the cache shows exactly the approved live rows, for a day |
| Currencies.WriteMatchesLoadIff | internal/handlers/admin/currencies.go:109-213 | the entry that a create or an update writes is the one a load would write iff the request carried the row's id |
| Currencies.WrittenShowsForADay | internal/handlers/admin/currencies.go:287-303 | what a create, update or load has written shows for a day whatever else happens, unless it is deleted by its name or cleaned up |
| Currencies.RowOfUpdates | internal/handlers/admin/currencies.go:71-265 | over every run a row keeps its id, is deleted for good iff a delete named it, and holds in each text the last non-empty value of its creation and accepted updates and in each flag their disjunction |

## Left out

- Hub: the count of clients that is logged under the read lock, the client's time zone and the text of the pong, read limits and deadlines, and a failing upgrade.
- HubShutdown.ShutdownForcesZero: speaks of continuations without new clients, tasks or broadcasts and without the 30-second tick of a client whose connection is open; `HubArrivals.ArrivalsBoundTheEnd` bounds those with any number of them. That arrivals end, or that a select does not pick them for ever, is not part of the model.
- Hub: connecting the mutable classes of `HubHandlers.dfy` under interference; interleaving is modelled on values in `Hub.dfy`.
- Rate limiter: the path on which Redis fails and every request passes, and the choice of the client's key.
- TokenBucket.IntervalBound: states the bound in windows and for a window of at least 1; for rates above 1000, where there is no window, `TokenBucket.KeepsRateIff` shows that nothing is bounded.
- Market: fees, leverage, price bands and statistics, which no code here computes with.
- Ledger: the machine width of Version, the snapshot and event records, and the users and assets that a balance belongs to.
- One-time passwords: the cipher (whether a record decrypts is an input), classification and masking of contacts, creating users and issuing tokens, and interleaving of the Redis commands of two handlers.
- Tokens: signing and parsing, and fractions of a millisecond between the end of a blacklist entry and the expiry of its token.
- Currencies: the database's unique and check constraints (their verdict is an input of the step), failing cache writes, timestamps, and the events published to RabbitMQ.
- RabbitMQ and database connections, configuration, routing, encryption, and the account, asset, custody, KYC, order and trade records.
