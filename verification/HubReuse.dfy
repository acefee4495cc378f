/** Shutdown's wait on the wait group from the other side: wherever it is not safe to wait, some
    schedule panics or leaves a pump running. */
module HubReuse {
  import opened Sums
  import opened Channels
  import opened Hub
  import opened HubSafety
  import opened HubWait
  import opened HubShutdown

  // ---------------------------------------------------------------- building continuations

  lemma Then(hs: seq<Hub>, steps: seq<Step>, step: Step) returns (hs': seq<Hub>, steps': seq<Step>)
    requires Run(hs, steps) && Next(hs[|steps|], step).Some?
    ensures Run(hs', steps') && hs' == hs + [Next(hs[|steps|], step).value] && steps' == steps + [step]
  {
    hs', steps' := hs + [Next(hs[|steps|], step).value], steps + [step];
    forall i | 0 <= i < |steps'| ensures Next(hs'[i], steps'[i]) == Some(hs'[i + 1]) {
      if i < |steps| {
        assert Next(hs[i], steps[i]) == Some(hs[i + 1]);
      }
    }
  }

  lemma Before(h: Hub, step: Step, hs: seq<Hub>, steps: seq<Step>)
    requires Enabled(h, step) && Tail(hs, steps) && hs[0] == Next(h, step).value
    ensures Tail([h] + hs, [step] + steps)
  {
    PathBefore(h, step, hs, steps);
    var gs, all := [h] + hs, [step] + steps;
    forall i | 0 <= i < |all| ensures NothingNew(gs[i], all[i]) {
      if i > 0 {
        assert all[i] == steps[i - 1] && gs[i] == hs[i - 1];
      }
    }
  }

  lemma Joined(hs: seq<Hub>, steps: seq<Step>, hs': seq<Hub>, steps': seq<Step>)
    requires Tail(hs, steps) && Tail(hs', steps') && hs'[0] == hs[|steps|]
    ensures Tail(hs + hs'[1..], steps + steps') && (hs + hs'[1..])[|steps + steps'|] == hs'[|steps'|]
  {
    var gs, all := hs + hs'[1..], steps + steps';
    assert forall i :: |steps| <= i < |gs| ==> gs[i] == hs'[i - |steps|];
    forall i | 0 <= i < |all| ensures Next(gs[i], all[i]) == Some(gs[i + 1]) && NothingNew(gs[i], all[i]) {
      if i < |steps| {
        assert all[i] == steps[i] && Next(hs[i], steps[i]) == Some(hs[i + 1]);
      } else {
        var k := i - |steps|;
        assert all[i] == steps'[k] && Next(hs'[k], steps'[k]) == Some(hs'[k + 1]);
      }
    }
  }

  /** The server is shut down and has not panicked. */
  ghost predicate Closing(h: Hub) {
    Inv(h) && h.fault == NoFault && h.shutdownClosed
  }

  /** One step more. */
  lemma Onwards(h: Hub, step: Step)
    requires Closing(h) && Enabled(h, step) && !Reuses(h, step)
    ensures Closing(Next(h, step).value) && Measure(Next(h, step).value) < Measure(h)
  {
    TailDecreases(h, step);
  }

  // ---------------------------------------------------------------- up to the Add

  /** Clients before their Add are still before it, and the wait has at most begun. */
  ghost predicate StillBefore(h: Hub, g: Hub) {
    && g.wg == h.wg && (g.waiter == h.waiter || (h.waiter.NotWaiting? && g.waiter.Calling?))
    && (g.shutdown == Finished(false) ==> h.shutdown == Finished(false))
    && forall c: ClientId :: BeforeAdd(h, c) ==>
         BeforeAdd(g, c) && (h.conns[c].reader.Registered? ==> g.conns[c].reader.Registered?)
  }

  /** A step on the way to an Add: under the lock, or the one that takes it. */
  predicate LeadingStep(h: Hub, step: Step) {
    || LockStep(h, step)
    || (step.ReaderStep? && step.client < |h.conns| && h.conns[step.client].reader.Upgraded?)
    || (step.ShutdownStep? && h.shutdown.WantingWriteLock?)
  }

  lemma LeadingKeepsBefore(h: Hub, step: Step)
    requires Closing(h) && Enabled(h, step) && LeadingStep(h, step)
    ensures !Reuses(h, step) && StillBefore(h, Next(h, step).value)
  {
    StepOutcome(h, step);
    StepMovesWaiter(h, step);
    StepMovesShutdown(h, step);
    var g := Next(h, step).value;
    if g.waiter != h.waiter {
      NextKeepsInv(h, step);
    }
    forall c: ClientId | BeforeAdd(h, c)
      ensures BeforeAdd(g, c) && (h.conns[c].reader.Registered? ==> g.conns[c].reader.Registered?)
    {
      StepMovesReader(h, step, c);
    }
  }

  /** Client c is about to add to the wait group, and the wait has begun. */
  predicate AboutToAdd(h: Hub, c: ClientId) {
    BeforeAdd(h, c) && h.conns[c].reader.Registered? && !h.waiter.NotWaiting?
  }

  lemma LeadingMove(h: Hub, c: ClientId) returns (step: Step)
    requires Closing(h) && BeforeAdd(h, c) && !AboutToAdd(h, c)
    ensures Enabled(h, step) && LeadingStep(h, step)
  {
    assert Linked(h, c);
    if !LockFree(h) {
      step := LockMoves(h);
    } else if h.conns[c].reader.Upgraded? {
      step := ReaderStep(c, ReadError);
    } else {
      step := ShutdownStep(Continue);
    }
  }

  /** A client before its Add can be brought to it, before anybody else adds. */
  lemma {:induction false} Bring(h: Hub, c: ClientId) returns (hs: seq<Hub>, steps: seq<Step>)
    requires Closing(h) && BeforeAdd(h, c)
    ensures Tail(hs, steps) && hs[0] == h
    ensures var g := hs[|steps|]; Closing(g) && AboutToAdd(g, c) && StillBefore(h, g)
    decreases Measure(h)
  {
    if AboutToAdd(h, c) {
      hs, steps := [h], [];
    } else {
      var step := LeadingMove(h, c);
      LeadingKeepsBefore(h, step);
      Onwards(h, step);
      var more, rest := Bring(Next(h, step).value, c);
      Before(h, step, more, rest);
      hs, steps := [h] + more, [step] + rest;
    }
  }

  lemma AddHappens(h: Hub, c: ClientId)
    requires Closing(h) && AboutToAdd(h, c)
    ensures var step := ReaderStep(c, ReadError);
            && Enabled(h, step) && Adds(h, step)
            && (!h.waiter.Releasing? ==>
                  var g := Next(h, step).value;
                  Closing(g) && g.wg == h.wg + 1 && g.waiter == h.waiter && Measure(g) < Measure(h)
                  && forall d :: d != c && BeforeAdd(h, d) ==> BeforeAdd(g, d))
  {
    var step := ReaderStep(c, ReadError);
    assert ConnInv(h.conns[c]);
    StepOutcome(h, step);
    if !h.waiter.Releasing? {
      Onwards(h, step);
      StepMovesWaiter(h, step);
      forall d | d != c && BeforeAdd(h, d) ensures BeforeAdd(Next(h, step).value, d) {
        StepMovesReader(h, step, d);
      }
    }
  }

  // ---------------------------------------------------------------- up to the panic

  ghost predicate EndsInPanic(h: Hub, hs: seq<Hub>, steps: seq<Step>) {
    Tail(hs, steps) && hs[0] == h && hs[|steps|].fault != NoFault
  }

  lemma PanicsNow(h: Hub, step: Step) returns (hs: seq<Hub>, steps: seq<Step>)
    requires Closing(h) && Enabled(h, step) && Reuses(h, step)
    ensures EndsInPanic(h, hs, steps)
  {
    StepOutcome(h, step);
    hs, steps := [h, Next(h, step).value], [step];
  }

  lemma PanicsAfter(h: Hub, step: Step, more: seq<Hub>, rest: seq<Step>) returns (hs: seq<Hub>, steps: seq<Step>)
    requires Enabled(h, step) && EndsInPanic(Next(h, step).value, more, rest)
    ensures EndsInPanic(h, hs, steps)
  {
    Before(h, step, more, rest);
    hs, steps := [h] + more, [step] + rest;
  }

  /** While the waiter is parked, the pumps and the consumers can finish past a client that is
      about to add. */
  lemma ParkedMove(h: Hub, c: ClientId) returns (step: Step)
    requires Closing(h) && AboutToAdd(h, c) && h.waiter.Parked?
    ensures Enabled(h, step) && !Reuses(h, step)
    ensures var g := Next(h, step).value; AboutToAdd(g, c) && (g.waiter.Parked? || g.waiter.Releasing?)
  {
    step := SomeoneMoves(h);
    StepOutcome(h, step);
    StepMovesWaiter(h, step);
    StepMovesReader(h, step, c);
  }

  /** Where the wait has begun beside a positive counter, or the waiter is on its way out, an
      Add can bring about the panic. */
  predicate Exposed(h: Hub) {
    match h.waiter
    case NotWaiting => h.wg > 0
    case Calling => h.wg > 0
    case Returned => false
    case _ => true
  }

  lemma {:induction false} AddPanicsAhead(h: Hub, c: ClientId) returns (hs: seq<Hub>, steps: seq<Step>)
    requires Closing(h) && AboutToAdd(h, c) && Exposed(h)
    ensures EndsInPanic(h, hs, steps)
    decreases Measure(h)
  {
    var step := ReaderStep(c, ReadError);
    if h.waiter.Calling? {
      step := WaiterStep;
      Onwards(h, step);
      hs, steps := AddPanicsAhead(Next(h, step).value, c);
      hs, steps := PanicsAfter(h, step, hs, steps);
    } else if h.waiter.Parked? {
      step := ParkedMove(h, c);
      Onwards(h, step);
      hs, steps := AddPanicsAhead(Next(h, step).value, c);
      hs, steps := PanicsAfter(h, step, hs, steps);
    } else if h.waiter.Releasing? {
      AddHappens(h, c);
      hs, steps := PanicsNow(h, step);
    } else if h.wg > 0 {
      hs, steps := PanicsNow(h, WaiterStep);
    } else {
      AddHappens(h, c);
      hs, steps := PanicsNow(Next(h, step).value, WaiterStep);
      hs, steps := PanicsAfter(h, step, hs, steps);
    }
  }

  lemma BeforeAddPanicsAhead(h: Hub, c: ClientId) returns (hs: seq<Hub>, steps: seq<Step>)
    requires Closing(h) && BeforeAdd(h, c) && Exposed(h)
    ensures EndsInPanic(h, hs, steps)
  {
    var first, firstSteps := Bring(h, c);
    var more, rest := AddPanicsAhead(first[|firstSteps|], c);
    Joined(first, firstSteps, more, rest);
    hs, steps := first + more[1..], firstSteps + rest;
  }

  /** Two clients before their Add: the first makes the waiter wait, the second panics. */
  lemma TwoPanicAhead(h: Hub, c: ClientId, d: ClientId) returns (hs: seq<Hub>, steps: seq<Step>)
    requires Closing(h) && BeforeAdd(h, c) && BeforeAdd(h, d) && c != d && (h.waiter.NotWaiting? || h.waiter.Calling?)
    ensures EndsInPanic(h, hs, steps)
  {
    var first, firstSteps := Bring(h, c);
    var g := first[|firstSteps|];
    AddHappens(g, c);
    TermsNonNegative(g);
    var more, rest := BeforeAddPanicsAhead(Next(g, ReaderStep(c, ReadError)).value, d);
    more, rest := PanicsAfter(g, ReaderStep(c, ReadError), more, rest);
    Joined(first, firstSteps, more, rest);
    hs, steps := first + more[1..], firstSteps + rest;
  }

  lemma TermsNonNegative(h: Hub)
    requires Inv(h)
    ensures h.wg >= 0
  {
  }

  lemma UnsafePanics(h: Hub) returns (hs: seq<Hub>, steps: seq<Step>)
    requires Closing(h) && !SafeToWait(h)
    ensures EndsInPanic(h, hs, steps)
  {
    TermsNonNegative(h);
    if h.waiter.Rechecking? && h.wg > 0 {
      hs, steps := PanicsNow(h, WaiterStep);
    } else {
      var c :| BeforeAdd(h, c);
      if Exposed(h) {
        hs, steps := BeforeAddPanicsAhead(h, c);
      } else {
        var a, b :| BeforeAdd(h, a) && BeforeAdd(h, b) && a != b;
        hs, steps := TwoPanicAhead(h, a, b);
      }
    }
  }

  // ---------------------------------------------------------------- the theorems

  /** No continuation by quiet steps panics. */
  ghost predicate NeverPanics(h: Hub) {
    forall hs: seq<Hub>, steps: seq<Step> | QuietTail(hs, steps) && hs[0] == h :: hs[|steps|].fault == NoFault
  }

  lemma TailIsQuiet(hs: seq<Hub>, steps: seq<Step>)
    requires Tail(hs, steps)
    ensures QuietTail(hs, steps)
  {
    forall i | 0 <= i < |steps| ensures Quiet(steps[i]) {
      assert NothingNew(hs[i], steps[i]);
    }
  }

  lemma NeverPanicsIffSafe(h: Hub)
    requires Closing(h)
    ensures NeverPanics(h) <==> SafeToWait(h)
  {
    if SafeToWait(h) {
      forall hs: seq<Hub>, steps: seq<Step> | QuietTail(hs, steps) && hs[0] == h
        ensures hs[|steps|].fault == NoFault
      {
        QuietTailSafe(hs, steps, |steps|);
      }
    } else {
      var hs, steps := UnsafePanics(h);
      TailIsQuiet(hs, steps);
      assert hs[|steps|].fault != NoFault;
    }
  }

  /** After Shutdown began, in any reachable state: without new clients, consumers and calls of
      Shutdown the server never panics if and only if every accepted client is past its
      Wg.Add(1), or just one is not and finds the counter at zero before the wait is called,
      or the wait is over. */
  lemma NoReuseIff(past: seq<Hub>, done: seq<Step>)
    requires Run(past, done) && past[|done|].shutdownClosed && past[|done|].fault == NoFault
    ensures NeverPanics(past[|done|]) <==> SafeToWait(past[|done|])
  {
    RunKeepsInv(past, done, |done|);
    NeverPanicsIffSafe(past[|done|]);
  }

  /** No continuation panics in which Shutdown is not called again, whoever arrives. */
  ghost predicate NeverPanicsOpen(h: Hub) {
    forall hs: seq<Hub>, steps: seq<Step> |
      Path(hs, steps) && hs[0] == h && CallShutdown !in steps :: hs[|steps|].fault == NoFault
  }

  lemma {:induction false} ReturnedStays(hs: seq<Hub>, steps: seq<Step>, i: nat)
    requires Path(hs, steps) && i < |hs| && CallShutdown !in steps
    requires Inv(hs[0]) && hs[0].fault == NoFault && hs[0].waiter.Returned?
    ensures hs[i].fault == NoFault && hs[i].waiter.Returned?
  {
    if i > 0 {
      ReturnedStays(hs, steps, i - 1);
      PathKeepsInv(hs, steps, i - 1);
      assert Next(hs[i - 1], steps[i - 1]) == Some(hs[i]);
      StepOutcome(hs[i - 1], steps[i - 1]);
      StepMovesWaiter(hs[i - 1], steps[i - 1]);
    }
  }

  lemma Accepted(h: Hub)
    requires Closing(h)
    ensures var g := Next(h, Accept).value;
            && Next(h, Accept) == Some(g) && Closing(g) && g.waiter == h.waiter
            && BeforeAdd(g, |h.conns|) && |g.conns| == |h.conns| + 1
            && forall c :: BeforeAdd(h, c) ==> BeforeAdd(g, c)
  {
    NextKeepsInv(h, Accept);
  }

  /** Two clients that arrive in time make a panic possible. */
  lemma LatePanics(h: Hub) returns (hs: seq<Hub>, steps: seq<Step>)
    requires Closing(h) && !h.waiter.Returned?
    ensures Path(hs, steps) && hs[0] == h && CallShutdown !in steps && hs[|steps|].fault != NoFault
  {
    Accepted(h);
    var g := Next(h, Accept).value;
    Accepted(g);
    var g' := Next(g, Accept).value;
    assert BeforeAdd(g', |h.conns|) && BeforeAdd(g', |h.conns| + 1);
    var more, rest := UnsafePanics(g');
    TailIsQuiet(more, rest);
    PathBefore(g, Accept, more, rest);
    PathBefore(h, Accept, [g] + more, [Accept] + rest);
    hs, steps := [h] + ([g] + more), [Accept] + ([Accept] + rest);
  }

  /** With new clients still arriving, as while the HTTP server is up, the panic can happen in
      every state from the begin of Shutdown until its wait is over, and in none after. */
  lemma OpenServerCanPanicIff(past: seq<Hub>, done: seq<Step>)
    requires Run(past, done) && past[|done|].shutdownClosed && past[|done|].fault == NoFault
    ensures NeverPanicsOpen(past[|done|]) <==> past[|done|].waiter.Returned?
  {
    RunKeepsInv(past, done, |done|);
    var h := past[|done|];
    if h.waiter.Returned? {
      forall hs: seq<Hub>, steps: seq<Step> | Path(hs, steps) && hs[0] == h && CallShutdown !in steps
        ensures hs[|steps|].fault == NoFault
      {
        ReturnedStays(hs, steps, |steps|);
      }
    } else {
      var hs, steps := LatePanics(h);
      assert hs[|steps|].fault != NoFault;
    }
  }

  // ---------------------------------------------------------------- what success means

  /** No pump and no consumer is between Add and Done. */
  ghost predicate NobodyCounted(h: Hub) {
    && (forall c :: 0 <= c < |h.conns| ==> !CountedConn(h.conns[c]))
    && (forall t :: 0 <= t < |h.tasks| ==> !CountedTask(h.tasks[t]))
  }

  lemma ZeroIffNobody(h: Hub)
    requires Inv(h)
    ensures h.wg == 0 <==> NobodyCounted(h)
  {
    if h.wg == 0 {
      forall c | 0 <= c < |h.conns| ensures !CountedConn(h.conns[c]) {
        TermAtMostSum(h.conns, c, ConnWeight());
      }
      forall t | 0 <= t < |h.tasks| ensures !CountedTask(h.tasks[t]) {
        TermAtMostSum(h.tasks, t, TaskWeight());
      }
    } else if Sum(h.conns, ConnWeight()) > 0 {
      var c := PositiveTerm(h.conns, ConnWeight());
    } else {
      var t := PositiveTerm(h.tasks, TaskWeight());
    }
  }

  /** In no continuation by quiet steps is a pump or a consumer counted once Shutdown has
      reported success, which stays in its state for good. */
  ghost predicate SuccessLasts(h: Hub) {
    forall hs: seq<Hub>, steps: seq<Step> |
      QuietTail(hs, steps) && hs[0] == h && hs[|steps|].shutdown == Finished(true) :: NobodyCounted(hs[|steps|])
  }

  /** Shutdown has given up, or every accepted client is past its Add and, if the wait is over,
      done. */
  ghost predicate Settled(h: Hub) {
    h.shutdown == Finished(false) || (NoneBeforeAdd(h) && (h.waiter.Returned? ==> h.wg == 0))
  }

  lemma SettledStep(h: Hub, step: Step)
    requires Inv(h) && Next(h, step).Some? && Quiet(step) && Settled(h)
    ensures Settled(Next(h, step).value)
  {
    var g := Next(h, step).value;
    StepMovesShutdown(h, step);
    if h.shutdown != Finished(false) {
      assert Adds(h, step) ==> step.ReaderStep? && BeforeAdd(h, step.client);
      QuietKeepsCount(h, step);
      forall c | BeforeAdd(g, c) ensures BeforeAdd(h, c) {
        StepMovesReader(h, step, c);
      }
      StepOutcome(h, step);
      if g.fault == NoFault {
        StepMovesWaiter(h, step);
        NextKeepsInv(h, step);
        TermsNonNegative(g);
      } else {
        assert step == WaiterStep;
      }
    }
  }

  lemma {:induction false} SettledStays(hs: seq<Hub>, steps: seq<Step>, i: nat)
    requires QuietTail(hs, steps) && i < |hs| && Inv(hs[0]) && Settled(hs[0])
    ensures Inv(hs[i]) && Settled(hs[i])
  {
    if i > 0 {
      SettledStays(hs, steps, i - 1);
      assert Next(hs[i - 1], steps[i - 1]) == Some(hs[i]);
      NextKeepsInv(hs[i - 1], steps[i - 1]);
      SettledStep(hs[i - 1], steps[i - 1]);
    }
  }

  lemma SettledLasts(h: Hub)
    requires Inv(h) && Settled(h)
    ensures SuccessLasts(h)
  {
    forall hs: seq<Hub>, steps: seq<Step> |
      QuietTail(hs, steps) && hs[0] == h && hs[|steps|].shutdown == Finished(true)
      ensures NobodyCounted(hs[|steps|])
    {
      SettledStays(hs, steps, |steps|);
      ZeroIffNobody(hs[|steps|]);
    }
  }

  /** A continuation at whose end Shutdown has reported success and a pump is counted. */
  ghost predicate EndsCounted(h: Hub, hs: seq<Hub>, steps: seq<Step>) {
    Tail(hs, steps) && hs[0] == h && hs[|steps|].shutdown == Finished(true) && !NobodyCounted(hs[|steps|])
  }

  lemma CountedAfter(h: Hub, step: Step, more: seq<Hub>, rest: seq<Step>) returns (hs: seq<Hub>, steps: seq<Step>)
    requires Enabled(h, step) && EndsCounted(Next(h, step).value, more, rest)
    ensures EndsCounted(h, hs, steps)
  {
    Before(h, step, more, rest);
    hs, steps := [h] + more, [step] + rest;
  }

  /** A step towards the return of the wait, past a client that is about to add. */
  lemma WaitingMove(h: Hub, c: ClientId) returns (step: Step)
    requires Closing(h) && AboutToAdd(h, c) && h.shutdown.Waiting? && !h.waiter.Returned?
    ensures Enabled(h, step) && !Reuses(h, step)
    ensures var g := Next(h, step).value; AboutToAdd(g, c) && g.shutdown.Waiting?
  {
    if h.wg > 0 && !h.waiter.Calling? {
      step := SomeoneMoves(h);
    } else {
      step := WaiterStep;
    }
    StepOutcome(h, step);
    StepMovesWaiter(h, step);
    StepMovesReader(h, step, c);
    StepMovesShutdown(h, step);
  }

  /** The wait can end, and Shutdown report success, while client c is about to add. */
  lemma {:induction false} WaitSucceeds(h: Hub, c: ClientId) returns (hs: seq<Hub>, steps: seq<Step>)
    requires Closing(h) && AboutToAdd(h, c) && (h.shutdown.Waiting? || h.shutdown == Finished(true))
    ensures EndsCounted(h, hs, steps)
    decreases Measure(h)
  {
    var step;
    if h.shutdown.Finished? {
      step := ReaderStep(c, ReadError);
      AddHappens(h, c);
      var g := Next(h, step).value;
      StepMovesShutdown(h, step);
      TermsNonNegative(h);
      ZeroIffNobody(g);
      hs, steps := CountedAfter(h, step, [g], []);
      return;
    } else if h.waiter.Returned? {
      step := ShutdownStep(Continue);
    } else {
      step := WaitingMove(h, c);
    }
    Onwards(h, step);
    hs, steps := WaitSucceeds(Next(h, step).value, c);
    hs, steps := CountedAfter(h, step, hs, steps);
  }

  lemma UnsettledEndsCounted(h: Hub) returns (hs: seq<Hub>, steps: seq<Step>)
    requires Closing(h) && !Settled(h)
    ensures EndsCounted(h, hs, steps)
  {
    if NoneBeforeAdd(h) {
      ZeroIffNobody(h);
      hs, steps := [h], [];
      if h.shutdown.Waiting? {
        var step := ShutdownStep(Continue);
        hs, steps := CountedAfter(h, step, [Next(h, step).value], []);
      }
    } else {
      var c :| BeforeAdd(h, c);
      var first, firstSteps := Bring(h, c);
      var more, rest := WaitSucceeds(first[|firstSteps|], c);
      Joined(first, firstSteps, more, rest);
      hs, steps := first + more[1..], firstSteps + rest;
    }
  }

  /** After Shutdown began, in any reachable state: without new clients and consumers no pump
      and no consumer is ever counted once Shutdown has reported success, if and only if every
      accepted client is past its Wg.Add(1), and past its Wg.Done if the wait is over, or
      Shutdown has given up. From the call to the begin of the wait this is: if and only if
      every accepted client is past its Wg.Add(1). */
  lemma SuccessLastsIff(past: seq<Hub>, done: seq<Step>)
    requires Run(past, done) && past[|done|].shutdownClosed && past[|done|].fault == NoFault
    ensures SuccessLasts(past[|done|]) <==> Settled(past[|done|])
    ensures past[|done|].waiter.NotWaiting? ==> (SuccessLasts(past[|done|]) <==> NoneBeforeAdd(past[|done|]))
  {
    RunKeepsInv(past, done, |done|);
    var h := past[|done|];
    if Settled(h) {
      SettledLasts(h);
    } else {
      var hs, steps := UnsettledEndsCounted(h);
      TailIsQuiet(hs, steps);
      assert !NobodyCounted(hs[|steps|]);
    }
  }

  /** Seen by the caller: the condition is on the state in which Shutdown is called. */
  lemma SuccessOfCallLastsIff(past: seq<Hub>, done: seq<Step>)
    requires Run(past, done) && !past[|done|].shutdownClosed && past[|done|].fault == NoFault
    ensures Next(past[|done|], CallShutdown).Some?
    ensures SuccessLasts(Next(past[|done|], CallShutdown).value) <==> NoneBeforeAdd(past[|done|])
  {
    var h := past[|done|];
    RunKeepsInv(past, done, |done|);
    var hs, steps := Then(past, done, CallShutdown);
    SuccessLastsIff(hs, steps);
    assert forall c :: BeforeAdd(hs[|steps|], c) <==> BeforeAdd(h, c);
  }

  /** The same with new clients still arriving. */
  ghost predicate SuccessLastsOpen(h: Hub) {
    forall hs: seq<Hub>, steps: seq<Step> |
      Path(hs, steps) && hs[0] == h && CallShutdown !in steps && hs[|steps|].shutdown == Finished(true) ::
        NobodyCounted(hs[|steps|])
  }

  lemma {:induction false} GivenUpStays(hs: seq<Hub>, steps: seq<Step>, i: nat)
    requires Path(hs, steps) && i < |hs| && Inv(hs[0]) && hs[0].shutdown == Finished(false)
    ensures hs[i].shutdown == Finished(false)
  {
    if i > 0 {
      GivenUpStays(hs, steps, i - 1);
      PathKeepsInv(hs, steps, i - 1);
      assert Next(hs[i - 1], steps[i - 1]) == Some(hs[i]);
      StepMovesShutdown(hs[i - 1], steps[i - 1]);
    }
  }

  /** With new clients still arriving, as while the HTTP server is up, a success of Shutdown
      lasts in no state in which it can still be reported or has been. */
  lemma OpenSuccessLastsIff(past: seq<Hub>, done: seq<Step>)
    requires Run(past, done) && past[|done|].shutdownClosed && past[|done|].fault == NoFault
    ensures SuccessLastsOpen(past[|done|]) <==> past[|done|].shutdown == Finished(false)
  {
    RunKeepsInv(past, done, |done|);
    var h := past[|done|];
    if h.shutdown == Finished(false) {
      forall hs: seq<Hub>, steps: seq<Step> | Path(hs, steps) && hs[0] == h
        ensures hs[|steps|].shutdown == Finished(false)
      {
        GivenUpStays(hs, steps, |steps|);
      }
    } else {
      Accepted(h);
      var g := Next(h, Accept).value;
      assert BeforeAdd(g, |h.conns|);
      var hs, steps := UnsettledEndsCounted(g);
      TailIsQuiet(hs, steps);
      PathBefore(h, Accept, hs, steps);
      var gs, all := [h] + hs, [Accept] + steps;
      assert gs[|all|] == hs[|steps|] && CallShutdown !in all;
    }
  }

  lemma {:induction false} WaitEnds(hs: seq<Hub>, steps: seq<Step>, j: nat) returns (i: nat)
    requires Run(hs, steps) && j < |hs| && hs[j].waiter.Returned?
    ensures i < j < |hs| && !hs[i].waiter.Returned? && steps[i] == WaiterStep
    ensures hs[i + 1].waiter.Returned? && hs[i + 1].wg == 0 && hs[i + 1].fault == NoFault
  {
    if hs[j - 1].waiter.Returned? {
      i := WaitEnds(hs, steps, j - 1);
    } else {
      i := j - 1;
      RunKeepsInv(hs, steps, i);
      assert Next(hs[i], steps[i]) == Some(hs[i + 1]);
      ReturnsAtZero(hs[i], steps[i]);
    }
  }

  lemma ReturnsAtZero(h: Hub, step: Step)
    requires Inv(h) && Next(h, step).Some? && !h.waiter.Returned? && Next(h, step).value.waiter.Returned?
    ensures step == WaiterStep
    ensures var h' := Next(h, step).value; h'.wg == 0 && h'.fault == NoFault
  {
    if Next(h, step).value.fault == NoFault {
      StepMovesWaiter(h, step);
    } else {
      StepOutcome(h, step);
      if step.ReaderStep? {
        ReaderKeepsConn(h, step.client, step.read);
      }
    }
  }

  /** When Shutdown returns without an error, there was a moment since it began its wait in
      which no pump and no consumer was counted. */
  lemma SuccessMeansZero(hs: seq<Hub>, steps: seq<Step>, j: nat) returns (i: nat)
    requires Run(hs, steps) && j < |hs| && hs[j].shutdown == Finished(true)
    ensures i < j && !hs[i].waiter.Returned? && hs[i + 1].waiter.Returned?
    ensures NobodyCounted(hs[i + 1])
  {
    RunKeepsInv(hs, steps, j);
    i := WaitEnds(hs, steps, j);
    RunKeepsInv(hs, steps, i + 1);
    ZeroIffNobody(hs[i + 1]);
  }

  // ---------------------------------------------------------------- a run that panics

  const ABOUT_TO_ADD := ACCEPTED.(reader := Registered)
  const SERVED := ACCEPTED.(reader := Looping, writer := Selecting)

  /** Client 0 is in the map and about to be counted. */
  const REGISTERED := EMPTY.(clients := {0}, conns := [ABOUT_TO_ADD])

  lemma Register() returns (hs: seq<Hub>, steps: seq<Step>)
    ensures Run(hs, steps) && hs[|steps|] == REGISTERED
  {
    hs, steps := Then([EMPTY], [], Accept);
    hs, steps := Then(hs, steps, ReaderStep(0, ReadError));
    hs, steps := Then(hs, steps, ReaderStep(0, ReadError));
    hs, steps := Then(hs, steps, ReaderStep(0, ReadError));
  }

  /** And client 1 is served. */
  const SERVING := EMPTY.(clients := {0, 1}, conns := [ABOUT_TO_ADD, SERVED], wg := 1)

  lemma Serve() returns (hs: seq<Hub>, steps: seq<Step>)
    ensures Run(hs, steps) && hs[|steps|] == SERVING
  {
    hs, steps := Register();
    hs, steps := Then(hs, steps, Accept);
    hs, steps := Then(hs, steps, ReaderStep(1, ReadError));
    hs, steps := Then(hs, steps, ReaderStep(1, ReadError));
    hs, steps := Then(hs, steps, ReaderStep(1, ReadError));
    hs, steps := Then(hs, steps, ReaderStep(1, ReadError));
    hs, steps := Then(hs, steps, ReaderStep(1, ReadError));
    assert hs[|steps|] == SERVING;
  }

  /** Shutdown has closed both connections and waits for the pump of client 1. */
  const PARKED := Hub(
    {0, 1}, [ABOUT_TO_ADD.(socketClosed := true), SERVED.(socketClosed := true)],
    [], Nobody, {}, 1, Parked, true, Waiting, 1, NoFault)

  lemma Park() returns (hs: seq<Hub>, steps: seq<Step>)
    ensures Run(hs, steps) && hs[|steps|] == PARKED
  {
    hs, steps := Serve();
    hs, steps := Then(hs, steps, CallShutdown);
    hs, steps := Then(hs, steps, ShutdownStep(Continue));
    hs, steps := Then(hs, steps, ShutdownStep(CloseSocket(0)));
    hs, steps := Then(hs, steps, ShutdownStep(CloseSocket(1)));
    assert {0, 1} - {0} - {1} == {};
    hs, steps := Then(hs, steps, ShutdownStep(Continue));
    hs, steps := Then(hs, steps, WaiterStep);
    assert hs[|steps|] == PARKED;
  }

  /** Both clients were accepted and registered before Shutdown, which is called once. Then the
      pump of client 1 finishes and the waiter is let go, client 0 is counted, and the waiter
      looks at the counter again. */
  lemma ReusePanics() returns (hs: seq<Hub>, steps: seq<Step>)
    ensures Run(hs, steps) && |steps| >= 5 && hs[|steps| - 5] == PARKED
    ensures hs[|steps|].fault == WaitGroupReused && hs[|steps|].shutdownCalls == 1
  {
    hs, steps := Park();
    hs, steps := Then(hs, steps, WriterStep(1, SeeShutdown));
    hs, steps := Then(hs, steps, WriterStep(1, IoOk));
    hs, steps := Then(hs, steps, WaiterStep);
    hs, steps := Then(hs, steps, ReaderStep(0, ReadError));
    hs, steps := Then(hs, steps, WaiterStep);
  }

  // ---------------------------------------------------------------- a success that does not last

  /** Shutdown has reported success, and client 0, registered before the call, is about to be
      counted. */
  const SUCCEEDED := Hub(
    {0}, [ABOUT_TO_ADD.(socketClosed := true)], [], Nobody, {}, 0, Returned, true, Finished(true), 1, NoFault)

  lemma Succeed() returns (hs: seq<Hub>, steps: seq<Step>)
    ensures Run(hs, steps) && hs[|steps|] == SUCCEEDED
  {
    hs, steps := Register();
    hs, steps := Then(hs, steps, CallShutdown);
    hs, steps := Then(hs, steps, ShutdownStep(Continue));
    hs, steps := Then(hs, steps, ShutdownStep(CloseSocket(0)));
    assert {0} - {0} == {};
    hs, steps := Then(hs, steps, ShutdownStep(Continue));
    hs, steps := Then(hs, steps, WaiterStep);
    hs, steps := Then(hs, steps, ShutdownStep(Continue));
    assert hs[|steps|] == SUCCEEDED;
  }

  /** Shutdown, called once, reports success with no pump and no consumer counted, and then a
      client that was in the map before the call is counted and its pump starts, without any
      panic. */
  lemma PumpStartsAfterSuccess() returns (hs: seq<Hub>, steps: seq<Step>)
    ensures Run(hs, steps) && |steps| >= 2 && hs[|steps| - 2] == SUCCEEDED && NobodyCounted(hs[|steps| - 2])
    ensures var last := hs[|steps|];
            && last.shutdown == Finished(true) && |last.conns| == 1 && last.conns[0].writer.Selecting?
            && !NobodyCounted(last) && last.wg == 1 && last.fault == NoFault && last.shutdownCalls == 1
  {
    hs, steps := Succeed();
    hs, steps := Then(hs, steps, ReaderStep(0, ReadError));
    hs, steps := Then(hs, steps, ReaderStep(0, ReadError));
  }
}
