/** Shutdown's wait on the wait group: when it cannot meet an Add, as long as nobody new
    arrives. */
module HubWait {
  import opened Sums
  import opened Hub
  import opened HubSafety

  /** No client connects, no consumer starts and Shutdown is not called again; everything else
      may go on. */
  predicate Quiet(step: Step) {
    !step.Accept? && step != CallShutdown && step != StartTask(true)
  }

  /** A continuation of the run of quiet steps. */
  ghost predicate QuietTail(hs: seq<Hub>, steps: seq<Step>) {
    Path(hs, steps) && forall i :: 0 <= i < |steps| ==> Quiet(steps[i])
  }

  /** The client was accepted and its Wg.Add(1) is still to come. */
  predicate BeforeAdd(h: Hub, c: ClientId) {
    && c < |h.conns|
    && (h.conns[c].reader.Upgraded? || h.conns[c].reader.RegisterLocked? || h.conns[c].reader.RegisterInserted?
        || h.conns[c].reader.Registered?)
  }

  ghost predicate NoneBeforeAdd(h: Hub) {
    forall c :: !BeforeAdd(h, c)
  }

  ghost predicate OneBeforeAdd(h: Hub) {
    forall c, d :: BeforeAdd(h, c) && BeforeAdd(h, d) ==> c == d
  }

  /** Every accepted client is past its Add, or there is one that finds the counter at zero
      before the wait is called. */
  ghost predicate SafeToWait(h: Hub) {
    match h.waiter
    case NotWaiting => NoneBeforeAdd(h) || (OneBeforeAdd(h) && h.wg == 0)
    case Calling => NoneBeforeAdd(h) || (OneBeforeAdd(h) && h.wg == 0)
    case Parked => NoneBeforeAdd(h)
    case Releasing => NoneBeforeAdd(h)
    case Rechecking => NoneBeforeAdd(h) && h.wg == 0
    case Returned => true
  }

  /** The read pumps stay where they are. */
  ghost predicate SameReaders(h: Hub, h': Hub) {
    |h'.conns| >= |h.conns| && forall c :: 0 <= c < |h.conns| ==> h'.conns[c].reader == h.conns[c].reader
  }

  lemma WriterLeavesReaders(h: Hub, c: ClientId, input: WriteInput)
    requires Inv(h) && c < |h.conns| && NextWriter(h, c, input).Some?
    ensures SameReaders(h, NextWriter(h, c, input).value)
  {
    assert ConnInv(h.conns[c]);
    MoveKeepsConn(h.conns[c], h.shutdownClosed, input);
  }

  lemma TaskLeavesReaders(h: Hub, t: TaskId, input: TaskInput)
    requires t < |h.tasks| && NextTask(h, t, input).Some?
    ensures SameReaders(h, NextTask(h, t, input).value)
  {
  }

  lemma OthersLeaveReaders(h: Hub, step: Step)
    requires Inv(h) && Next(h, step).Some? && !step.ReaderStep?
    ensures SameReaders(h, Next(h, step).value)
  {
    match step
    case WriterStep(d, input) => WriterLeavesReaders(h, d, input);
    case TaskStep(t, input) => TaskLeavesReaders(h, t, input);
    case _ =>
  }

  /** How a step moves the place of a client's reader. */
  lemma StepMovesReader(h: Hub, step: Step, c: ClientId)
    requires Inv(h) && Next(h, step).Some? && c < |h.conns|
    ensures var h' := Next(h, step).value;
            && |h'.conns| >= |h.conns|
            && (!(step.ReaderStep? && step.client == c) ==> h'.conns[c].reader == h.conns[c].reader)
            && (BeforeAdd(h', c) ==> BeforeAdd(h, c))
            && (BeforeAdd(h, c) && h'.fault == NoFault ==>
                  (BeforeAdd(h', c) <==> !(step.ReaderStep? && step.client == c && Adds(h, step))))
  {
    if step.ReaderStep? {
      ReaderKeepsConn(h, step.client, step.read);
    } else {
      OthersLeaveReaders(h, step);
    }
  }

  lemma QuietKeepsCount(h: Hub, step: Step)
    requires Inv(h) && Next(h, step).Some? && Quiet(step)
    ensures |Next(h, step).value.conns| == |h.conns|
  {
    match step
    case ReaderStep(d, input) => ReaderKeepsConn(h, d, input);
    case WriterStep(d, input) => assert ConnInv(h.conns[d]);
    case _ =>
  }

  /** Quiet steps keep the condition, and under it they do not panic. */
  lemma QuietKeepsSafe(h: Hub, step: Step)
    requires Inv(h) && Next(h, step).Some? && Quiet(step) && SafeToWait(h)
    ensures var h' := Next(h, step).value; h'.fault == NoFault && SafeToWait(h')
  {
    var h' := Next(h, step).value;
    StepOutcome(h, step);
    QuietKeepsCount(h, step);
    assert Adds(h, step) ==> step.ReaderStep? && BeforeAdd(h, step.client);
    forall c | BeforeAdd(h', c) ensures BeforeAdd(h, c) && !(Adds(h, step) && step.client == c) {
      StepMovesReader(h, step, c);
    }
    StepMovesWaiter(h, step);
  }

  lemma {:induction false} QuietTailSafe(hs: seq<Hub>, steps: seq<Step>, i: nat)
    requires QuietTail(hs, steps) && i < |hs| && Inv(hs[0]) && hs[0].fault == NoFault && SafeToWait(hs[0])
    ensures hs[i].fault == NoFault && SafeToWait(hs[i])
  {
    if i > 0 {
      QuietTailSafe(hs, steps, i - 1);
      PathKeepsInv(hs, steps, i - 1);
      assert Next(hs[i - 1], steps[i - 1]) == Some(hs[i]);
      QuietKeepsSafe(hs[i - 1], steps[i - 1]);
    }
  }
}
