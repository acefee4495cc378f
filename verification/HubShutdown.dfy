/** Shutdown of the WebSocket hub: once h.ShutdownCh is closed, every continuation of the
    run in which nothing new arrives is finite and ends with the wait group at zero, or with
    the panic of a wait group that is added to while its waiter leaves. */
module HubShutdown {
  import opened Sums
  import opened Channels
  import opened Hub
  import opened HubSafety
  import opened HubWait

  /** Nothing new arrives: no client, no task, no further broadcast, no second Shutdown, and
      the 30-second ticker does not fire for a client whose connection is still open. */
  predicate NothingNew(h: Hub, step: Step) {
    match step
    case Accept => false
    case StartTask(_) => false
    case CallShutdown => false
    case ReaderStep(_, _) => true
    case WriterStep(c, input) =>
      input == Tick && c < |h.conns| && h.conns[c].writer.Selecting? ==> h.conns[c].socketClosed
    case TaskStep(t, input) => !(input.Begin? && t < |h.tasks| && h.tasks[t].pc.Idle?)
    case ShutdownStep(_) => true
    case WaiterStep => true
  }

  /** A continuation of the run in which nothing new arrives. */
  ghost predicate Tail(hs: seq<Hub>, steps: seq<Step>) {
    Path(hs, steps) && forall i :: 0 <= i < |steps| ==> NothingNew(hs[i], steps[i])
  }

  // ---------------------------------------------------------------- a measure for such steps

  function ReaderRank(pc: ReaderPc): nat {
    match pc
    case Upgraded => 13
    case RegisterLocked => 12
    case RegisterInserted => 11
    case Registered => 10
    case Counted => 9
    case Reading => 8
    case Ponging(_) => 7
    case Looping => 6
    case Leaving => 5
    case UnregisterLocked => 4
    case UnregisterDeleted => 3
    case ClosingChannel => 2
    case ClosingSocket => 1
    case Gone => 0
  }

  function WriterRank(k: Conn): nat {
    match k.writer
    case NotStarted => 8
    case Opening(_) => 6
    case Draining(_) => 5
    case Flushing => 4
    case Pinging => if k.socketClosed then 2 else 4
    case Selecting => 3
    case Returning => 1
    case Stopped => 0
  }

  /** A buffered message costs its pump at most five steps; a reader that can still answer a
      ping pays for the message in advance. */
  function ConnRank(k: Conn): nat {
    6 * ReaderRank(k.reader) + 5 * |k.send.buffer| + WriterRank(k)
  }

  function TaskRank(t: Task, clients: nat): nat {
    match t.pc
    case WantingLock(_) => 6 * clients + 4
    case Visiting(_, left) => 6 * |left| + 3
    case Idle => 2
    case Exiting => 1
    case Ended => 0
  }

  function ShutdownRank(pc: ShutdownPc, clients: nat): nat {
    match pc
    case NotCalled => 0
    case WantingWriteLock => clients + 3
    case ClosingSockets(left) => |left| + 2
    case Waiting => 1
    case Finished(_) => 0
  }

  function WaiterRank(pc: WaiterPc): nat {
    match pc
    case NotWaiting => 5
    case Calling => 4
    case Parked => 3
    case Releasing => 2
    case Rechecking => 1
    case Returned => 0
  }

  function ConnRanks(): Conn -> nat { k => ConnRank(k) }

  function TaskRanks(clients: nat): Task -> nat { t => TaskRank(t, clients) }

  function Measure(h: Hub): nat {
    Sum(h.conns, ConnRanks()) + Sum(h.tasks, TaskRanks(|h.conns|)) + ShutdownRank(h.shutdown, |h.conns|)
    + WaiterRank(h.waiter) + (if h.fault == NoFault then 1 else 0)
  }

  lemma {:induction false} BoundedSetSize(s: set<nat>, n: nat)
    requires forall x :: x in s ==> x < n
    ensures |s| <= n
  {
    if n == 0 {
      assert s == {};
    } else {
      BoundedSetSize(s - {n - 1}, n - 1);
      assert |s| <= |s - {n - 1}| + 1 by {
        if n - 1 in s {
          assert |s - {n - 1}| == |s| - 1;
        } else {
          assert s - {n - 1} == s;
        }
      }
    }
  }

  lemma MeasureConn(h: Hub, c: ClientId, k: Conn)
    requires c < |h.conns|
    ensures Measure(SetConn(h, c, k)) + ConnRank(h.conns[c]) == Measure(h) + ConnRank(k)
  {
    SumUpdate(h.conns, c, k, ConnRanks());
  }

  lemma MeasureTask(h: Hub, t: TaskId, pc: TaskPc)
    requires t < |h.tasks|
    ensures Measure(SetTask(h, t, pc)) + TaskRank(h.tasks[t], |h.conns|)
            == Measure(h) + TaskRank(h.tasks[t].(pc := pc), |h.conns|)
  {
    SumUpdate(h.tasks, t, h.tasks[t].(pc := pc), TaskRanks(|h.conns|));
  }

  lemma ReadMoveLowersRank(k: Conn, input: ReadInput)
    requires ConnInv(k) && ReaderMove(k, true, input).Some?
    ensures ConnRank(ReaderMove(k, true, input).value) < ConnRank(k)
  {
  }

  lemma ReaderDecreases(h: Hub, c: ClientId, input: ReadInput)
    requires ConnsInv(h) && h.fault == NoFault && h.shutdownClosed && c < |h.conns| && NextReader(h, c, input).Some?
    ensures Measure(NextReader(h, c, input).value) < Measure(h)
  {
    ReaderKeepsConn(h, c, input);
    if !ReaderTrips(h, c) {
      var k' := ReaderMove(h.conns[c], h.shutdownClosed, input).value;
      ReadMoveLowersRank(h.conns[c], input);
      MeasureConn(h, c, k');
    }
  }

  lemma WriterDecreases(h: Hub, c: ClientId, input: WriteInput)
    requires Inv(h) && h.fault == NoFault && c < |h.conns| && NextWriter(h, c, input).Some?
    requires NothingNew(h, WriterStep(c, input))
    ensures Measure(NextWriter(h, c, input).value) < Measure(h)
  {
    var k := h.conns[c];
    assert ConnInv(k) && !ReadsZeroValue(k);
    var k' := WriterMove(k, h.shutdownClosed, input).value;
    assert ConnRank(k') < ConnRank(k);
    MeasureConn(h, c, k');
    var h' := NextWriter(h, c, input).value;
    WriterOutcome(h, c, input);
    assert Measure(h') <= Measure(SetConn(h, c, k'));
  }

  lemma VisitDecreases(h: Hub, t: TaskId, c: ClientId)
    requires Inv(h) && h.fault == NoFault && t < |h.tasks| && h.tasks[t].pc.Visiting? && c in h.tasks[t].pc.left
    ensures NextTask(h, t, Visit(c)).Some? && Measure(NextTask(h, t, Visit(c)).value) < Measure(h)
  {
    var message, left := h.tasks[t].pc.message, h.tasks[t].pc.left;
    assert TaskInv(h, t) && Linked(h, c) && ConnInv(h.conns[c]);
    var h1 := SetTask(h, t, Visiting(message, left - {c}));
    assert |left - {c}| == |left| - 1;
    MeasureTask(h, t, Visiting(message, left - {c}));
    var k := h.conns[c].(send := TrySend(h.conns[c].send, message).0);
    assert NextTask(h, t, Visit(c)).value == SetConn(h1, c, k);
    MeasureConn(h1, c, k);
  }

  lemma TaskDecreases(h: Hub, t: TaskId, input: TaskInput)
    requires Inv(h) && h.fault == NoFault && t < |h.tasks| && NextTask(h, t, input).Some?
    requires NothingNew(h, TaskStep(t, input))
    ensures Measure(NextTask(h, t, input).value) < Measure(h)
  {
    var pc := h.tasks[t].pc;
    if pc.Visiting? && pc.left != {} {
      VisitDecreases(h, t, input.client);
    } else {
      var h' := NextTask(h, t, input).value;
      QuietTask(h, t, input);
      BoundedSetSize(h.clients, |h.conns|);
      MeasureTask(h, t, h'.tasks[t].pc);
      assert Measure(h') <= Measure(SetTask(h, t, h'.tasks[t].pc));
    }
  }

  lemma CloseDecreases(h: Hub, c: ClientId)
    requires Inv(h) && h.fault == NoFault && h.shutdown.ClosingSockets? && c in h.shutdown.left
    ensures NextShutdown(h, CloseSocket(c)).Some?
    ensures Measure(NextShutdown(h, CloseSocket(c)).value) < Measure(h)
  {
    var left, k := h.shutdown.left, h.conns[c].(socketClosed := true);
    MeasureConn(h, c, k);
    assert |left - {c}| == |left| - 1;
    assert NextShutdown(h, CloseSocket(c)).value == SetConn(h, c, k).(shutdown := ClosingSockets(left - {c}));
  }

  lemma ShutdownDecreases(h: Hub, input: ShutdownInput)
    requires Inv(h) && h.fault == NoFault && NextShutdown(h, input).Some?
    ensures Measure(NextShutdown(h, input).value) < Measure(h)
  {
    if h.shutdown.ClosingSockets? && h.shutdown.left != {} {
      CloseDecreases(h, input.client);
    } else {
      BoundedSetSize(h.clients, |h.conns|);
      var h' := NextShutdown(h, input).value;
      assert h'.conns == h.conns && h'.tasks == h.tasks;
    }
  }

  lemma WaiterDecreases(h: Hub)
    requires Inv(h) && h.fault == NoFault && NextWaiter(h).Some?
    ensures Measure(NextWaiter(h).value) < Measure(h)
  {
    assert NextWaiter(h).value.conns == h.conns;
  }

  lemma TailMeasure(h: Hub, step: Step)
    requires Inv(h) && h.fault == NoFault && h.shutdownClosed
    requires NothingNew(h, step) && Next(h, step).Some?
    ensures Measure(Next(h, step).value) < Measure(h)
  {
    match step
    case ReaderStep(c, input) => ReaderDecreases(h, c, input);
    case WriterStep(c, input) => WriterDecreases(h, c, input);
    case TaskStep(t, input) => TaskDecreases(h, t, input);
    case ShutdownStep(input) => ShutdownDecreases(h, input);
    case WaiterStep => WaiterDecreases(h);
  }

  lemma StaysShutDown(h: Hub, step: Step)
    requires Inv(h) && Next(h, step).Some? && h.shutdownClosed
    ensures Next(h, step).value.shutdownClosed
  {
    match step
    case ReaderStep(c, input) => ReaderKeepsConn(h, c, input);
    case WriterStep(c, input) => WriterOutcome(h, c, input);
    case TaskStep(t, input) => TaskOutcome(h, t, input);
    case _ =>
  }

  /** Every step in which nothing new arrives lowers the measure. It panics if and only if it
      uses the wait group again while its waiter leaves, which does not happen if it was safe
      to wait. */
  lemma TailDecreases(h: Hub, step: Step)
    requires Inv(h) && h.shutdownClosed && NothingNew(h, step) && Next(h, step).Some?
    ensures var h' := Next(h, step).value;
            && Inv(h') && h'.shutdownClosed && Measure(h') < Measure(h)
            && (h'.fault == NoFault <==> !Reuses(h, step))
            && (SafeToWait(h) ==> h'.fault == NoFault && SafeToWait(h'))
  {
    NextKeepsInv(h, step);
    StepOutcome(h, step);
    StaysShutDown(h, step);
    TailMeasure(h, step);
    if SafeToWait(h) {
      QuietKeepsSafe(h, step);
    }
  }

  // ---------------------------------------------------------------- no deadlock before zero

  ghost predicate Enabled(h: Hub, step: Step) {
    NothingNew(h, step) && Next(h, step).Some?
  }

  /** A step of someone who holds the lock. */
  predicate LockStep(h: Hub, step: Step) {
    match step
    case ReaderStep(c, _) => c < |h.conns| && HoldsLock(h.conns[c].reader)
    case TaskStep(t, input) => t < |h.tasks| && h.tasks[t].pc.Visiting? && !input.Begin?
    case ShutdownStep(_) => h.shutdown.ClosingSockets?
    case _ => false
  }

  /** Whoever holds the write lock can go on. */
  lemma HolderMoves(h: Hub) returns (step: Step)
    requires Inv(h) && h.fault == NoFault && h.lockWriter != Nobody
    ensures Enabled(h, step) && LockStep(h, step)
  {
    if h.lockWriter.Pump? {
      assert Linked(h, h.lockWriter.client);
      step := ReaderStep(h.lockWriter.client, ReadError);
    } else if h.shutdown.left == {} {
      step := ShutdownStep(Continue);
    } else {
      var c :| c in h.shutdown.left;
      step := ShutdownStep(CloseSocket(c));
    }
  }

  /** And so can whoever holds the read lock. */
  lemma VisitorMoves(h: Hub, t: TaskId) returns (step: Step)
    requires Inv(h) && h.fault == NoFault && t < |h.tasks| && h.tasks[t].pc.Visiting?
    ensures Enabled(h, step) && LockStep(h, step)
  {
    var pc := h.tasks[t].pc;
    assert TaskInv(h, t);
    if pc.left == {} {
      step := TaskStep(t, Proceed);
    } else {
      var c :| c in pc.left;
      assert c in h.clients && Linked(h, c) && ConnInv(h.conns[c]);
      step := TaskStep(t, Visit(c));
    }
  }

  lemma LockMoves(h: Hub) returns (step: Step)
    requires Inv(h) && h.fault == NoFault && !LockFree(h)
    ensures Enabled(h, step) && LockStep(h, step)
  {
    if h.lockWriter != Nobody {
      step := HolderMoves(h);
    } else {
      var t :| t in h.lockReaders;
      assert TaskInv(h, t);
      step := VisitorMoves(h, t);
    }
  }

  lemma PumpMoves(h: Hub, c: ClientId) returns (step: Step)
    requires Inv(h) && h.fault == NoFault && h.shutdownClosed && c < |h.conns| && CountedConn(h.conns[c])
    ensures Enabled(h, step) && (step.ReaderStep? || step.WriterStep?)
    ensures step.ReaderStep? ==> step.client == c && h.conns[c].reader.Counted?
  {
    var k := h.conns[c];
    assert ConnInv(k);
    if k.reader.Counted? {
      step := ReaderStep(c, ReadError);
    } else if k.writer.Selecting? {
      step := WriterStep(c, SeeShutdown);
    } else {
      step := WriterStep(c, IoError);
    }
  }

  lemma TaskMoves(h: Hub, t: TaskId) returns (step: Step)
    requires Inv(h) && h.fault == NoFault && t < |h.tasks| && CountedTask(h.tasks[t])
    ensures Enabled(h, step) && (LockStep(h, step) || step.TaskStep?)
  {
    var pc := h.tasks[t].pc;
    assert TaskInv(h, t);
    if pc.Visiting? {
      step := VisitorMoves(h, t);
    } else if pc.WantingLock? && h.lockWriter != Nobody {
      step := HolderMoves(h);
    } else {
      step := TaskStep(t, Proceed);
    }
  }

  /** While the wait group is above zero some goroutine can move, and none that is still to
      register with the map or the wait group has to. */
  lemma SomeoneMoves(h: Hub) returns (step: Step)
    requires Inv(h) && h.fault == NoFault && h.shutdownClosed && h.wg > 0
    ensures Enabled(h, step)
    ensures step.ReaderStep? ==>
              && step.client < |h.conns|
              && !h.conns[step.client].reader.Upgraded? && !h.conns[step.client].reader.Registered?
    ensures step != WaiterStep && (step.ShutdownStep? ==> h.shutdown.ClosingSockets?)
  {
    if Sum(h.conns, ConnWeight()) > 0 {
      var c := PositiveTerm(h.conns, ConnWeight());
      step := PumpMoves(h, c);
    } else {
      var t := PositiveTerm(h.tasks, TaskWeight());
      step := TaskMoves(h, t);
    }
  }

  /** Nobody moves only once the wait is over and Shutdown has returned. */
  lemma StuckIsDone(h: Hub) returns (step: Step)
    requires Inv(h) && h.fault == NoFault && h.shutdownClosed
    requires !(h.wg == 0 && h.waiter.Returned? && h.shutdown.Finished?)
    ensures Enabled(h, step)
  {
    if h.wg > 0 {
      step := SomeoneMoves(h);
    } else if !LockFree(h) {
      step := LockMoves(h);
    } else if h.shutdown.Finished? {
      step := WaiterStep;
    } else {
      step := ShutdownStep(Timeout);
    }
  }

  lemma StuckMeansDone(h: Hub)
    requires Inv(h) && h.fault == NoFault && h.shutdownClosed
    ensures (forall step :: !Enabled(h, step)) ==> h.wg == 0 && h.waiter.Returned? && h.shutdown.Finished?
  {
    if !(h.wg == 0 && h.waiter.Returned? && h.shutdown.Finished?) {
      var step := StuckIsDone(h);
      assert Enabled(h, step);
    }
  }

  // ---------------------------------------------------------------- the theorem

  lemma TailStep(hs: seq<Hub>, steps: seq<Step>, i: nat)
    requires Tail(hs, steps) && i < |steps| && Inv(hs[i]) && hs[i].shutdownClosed
    ensures Inv(hs[i + 1]) && hs[i + 1].shutdownClosed && Measure(hs[i + 1]) < Measure(hs[i])
    ensures hs[i].fault == NoFault && (hs[i + 1].fault == NoFault <==> !Reuses(hs[i], steps[i]))
    ensures SafeToWait(hs[i]) ==> SafeToWait(hs[i + 1]) && hs[i + 1].fault == NoFault
  {
    assert Next(hs[i], steps[i]) == Some(hs[i + 1]);
    TailDecreases(hs[i], steps[i]);
  }

  lemma {:induction false} TailInv(hs: seq<Hub>, steps: seq<Step>, i: nat)
    requires Tail(hs, steps) && i < |hs|
    requires Inv(hs[0]) && hs[0].shutdownClosed
    ensures Inv(hs[i]) && hs[i].shutdownClosed && Measure(hs[i]) + i <= Measure(hs[0])
    ensures hs[0].fault == NoFault && SafeToWait(hs[0]) ==> hs[i].fault == NoFault && SafeToWait(hs[i])
  {
    if i > 0 {
      TailInv(hs, steps, i - 1);
      TailStep(hs, steps, i - 1);
    }
  }

  /** From any state that the server can reach after Shutdown closed h.ShutdownCh, and under
      every schedule: a continuation in which nothing new arrives has a bounded length, and
      where it cannot be continued the wait group is zero, the wait is over and Shutdown has
      returned, unless the wait group was used again while its waiter left. If it was safe to
      wait this never happens. */
  lemma ShutdownForcesZero(before: seq<Hub>, past: seq<Step>, hs: seq<Hub>, steps: seq<Step>)
    requires Run(before, past) && before[|past|].shutdownClosed && before[|past|].fault == NoFault
    requires Tail(hs, steps) && hs[0] == before[|past|]
    ensures |steps| <= Measure(hs[0])
    ensures var last := hs[|steps|];
            && ((forall step :: !Enabled(last, step)) && last.fault == NoFault ==>
                  last.wg == 0 && last.waiter.Returned? && last.shutdown.Finished?)
            && (last.fault == NoFault || (|steps| > 0 && Reuses(hs[|steps| - 1], steps[|steps| - 1])))
            && (SafeToWait(hs[0]) ==> last.fault == NoFault)
  {
    RunKeepsInv(before, past, |past|);
    TailInv(hs, steps, |steps|);
    var last := hs[|steps|];
    if last.fault != NoFault {
      TailInv(hs, steps, |steps| - 1);
      TailStep(hs, steps, |steps| - 1);
    } else {
      StuckMeansDone(last);
    }
  }
}
