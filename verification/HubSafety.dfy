/** Safety of the WebSocket hub over every interleaving. */
module HubSafety {
  import opened Sums
  import opened Channels
  import opened Hub

  // ---------------------------------------------------------------- the invariant

  /** The stretch of ServeWS in which the client is in h.Clients. */
  predicate InMap(pc: ReaderPc) {
    pc.RegisterInserted? || pc.Registered? || pc.Counted? || pc.Looping? || pc.Reading? || pc.Ponging?
    || pc.Leaving? || pc.UnregisterLocked?
  }

  predicate HoldsLock(pc: ReaderPc) {
    pc.RegisterLocked? || pc.RegisterInserted? || pc.UnregisterLocked? || pc.UnregisterDeleted?
  }

  /** Before `go h.writePump(client)`. */
  predicate BeforeWriter(pc: ReaderPc) {
    pc.Upgraded? || pc.RegisterLocked? || pc.RegisterInserted? || pc.Registered? || pc.Counted?
  }

  /** Between the Wg.Add(1) of ServeWS and the Wg.Done of writePump. */
  predicate CountedConn(k: Conn) {
    k.reader.Counted? || !(k.writer.NotStarted? || k.writer.Stopped?)
  }

  predicate CountedTask(t: Task) {
    t.tracked && !t.pc.Ended?
  }

  function ConnWeight(): Conn -> nat { k => if CountedConn(k) then 1 else 0 }

  function TaskWeight(): Task -> nat { t => if CountedTask(t) then 1 else 0 }

  function Pending(h: Hub): nat {
    Sum(h.conns, ConnWeight()) + Sum(h.tasks, TaskWeight())
  }

  /** The pump has written what it has taken, but for a message in its hands, or the last one
      if it gave up. */
  predicate Wired(k: Conn) {
    match k.writer
    case Opening(message) => k.send.taken == k.written + [message]
    case Returning => k.written <= k.send.taken && |k.send.taken| <= |k.written| + 1
    case Stopped => k.written <= k.send.taken && |k.send.taken| <= |k.written| + 1
    case _ => k.send.taken == k.written
  }

  /** What holds of one client by itself. */
  predicate ConnInv(k: Conn) {
    && InOrder(k.send) && Wired(k)
    && (k.send.closed <==> k.reader.ClosingSocket? || k.reader.Gone?)
    && (k.writer.NotStarted? <==> BeforeWriter(k.reader))
    && (k.writer.Draining? ==> k.writer.left <= |k.send.buffer|)
    && (k.reader.Gone? ==> k.socketClosed)
  }

  /** Histories only grow and a closed connection stays closed. */
  predicate Grows(a: Conn, b: Conn) {
    && a.send.accepted <= b.send.accepted && a.send.taken <= b.send.taken && a.written <= b.written
    && (a.socketClosed ==> b.socketClosed)
  }

  /** How one client stands to the map and the lock. */
  predicate Linked(h: Hub, c: ClientId)
    requires c < |h.conns|
  {
    && (c in h.clients <==> InMap(h.conns[c].reader))
    && (h.lockWriter == Pump(c) <==> HoldsLock(h.conns[c].reader))
  }

  predicate TaskInv(h: Hub, t: TaskId)
    requires t < |h.tasks|
  {
    && (t in h.lockReaders <==> h.tasks[t].pc.Visiting?)
    && (h.tasks[t].pc.Visiting? ==> h.tasks[t].pc.left <= h.clients)
  }

  ghost predicate ConnsInv(h: Hub) {
    && (forall c :: 0 <= c < |h.conns| ==> ConnInv(h.conns[c]))
    && (forall c :: 0 <= c < |h.conns| ==> Linked(h, c))
    && (forall c :: c in h.clients ==> c < |h.conns|)
  }

  ghost predicate TasksInv(h: Hub) {
    && (forall t :: 0 <= t < |h.tasks| ==> TaskInv(h, t))
    && (forall t :: t in h.lockReaders ==> t < |h.tasks|)
  }

  /** A writer excludes everyone else. */
  ghost predicate LockInv(h: Hub) {
    && (h.lockWriter != Nobody ==> h.lockReaders == {})
    && (h.lockWriter.Pump? ==> h.lockWriter.client < |h.conns|)
    && (h.lockWriter.Stopper? <==> h.shutdown.ClosingSockets?)
    && (h.shutdown.ClosingSockets? ==> h.shutdown.left <= h.clients)
  }

  ghost predicate ShutdownInv(h: Hub) {
    && (h.shutdownClosed <==> h.shutdownCalls >= 1)
    && (h.shutdownClosed <==> !h.shutdown.NotCalled?)
  }

  /** The waiter is parked only beside a positive counter and let go only at zero. */
  ghost predicate WaiterInv(h: Hub) {
    && (h.waiter.NotWaiting? <==> !h.shutdown.Waiting? && !h.shutdown.Finished?)
    && (h.waiter.Parked? ==> h.wg > 0)
    && (h.waiter.Releasing? ==> h.wg == 0)
    && (h.shutdown == Finished(true) ==> h.waiter.Returned?)
  }

  /** The only panics that ever happen: a second Shutdown, and the two by which the wait group
      reports that it is added to while its waiter leaves. */
  predicate FaultInv(h: Hub) {
    && (h.fault == CloseOfClosedChannel <==> h.shutdownCalls > 1)
    && (h.fault == NoFault || h.fault == CloseOfClosedChannel || h.fault == AddBesideWait || h.fault == WaitGroupReused)
  }

  ghost predicate Inv(h: Hub) {
    ConnsInv(h) && TasksInv(h) && LockInv(h) && ShutdownInv(h) && WaiterInv(h) && FaultInv(h) && h.wg == Pending(h)
  }

  // ---------------------------------------------------------------- every step keeps it

  /** How the sum behind the wait group moves when one client changes. */
  lemma PendingConn(h: Hub, c: ClientId, k: Conn)
    requires c < |h.conns|
    ensures Pending(SetConn(h, c, k)) + ConnWeight()(h.conns[c]) == Pending(h) + ConnWeight()(k)
  {
    SumUpdate(h.conns, c, k, ConnWeight());
  }

  lemma PendingTask(h: Hub, t: TaskId, pc: TaskPc)
    requires t < |h.tasks|
    ensures Pending(SetTask(h, t, pc)) + TaskWeight()(h.tasks[t])
            == Pending(h) + TaskWeight()(h.tasks[t].(pc := pc))
  {
    SumUpdate(h.tasks, t, h.tasks[t].(pc := pc), TaskWeight());
  }

  /** A step that changes client c, and only c's place in the map and under the lock. */
  lemma ConnsFrame(h: Hub, h': Hub, c: ClientId, k: Conn)
    requires ConnsInv(h) && c < |h.conns| && h'.conns == h.conns[c := k]
    requires ConnInv(k) && Linked(h', c)
    requires h'.clients - {c} == h.clients - {c}
    requires forall d :: d != c ==> (h'.lockWriter == Pump(d) <==> h.lockWriter == Pump(d))
    ensures ConnsInv(h')
  {
    forall d | 0 <= d < |h'.conns| ensures ConnInv(h'.conns[d]) && Linked(h', d) {
      if d != c {
        assert ConnInv(h.conns[d]) && Linked(h, d);
        assert d in h'.clients <==> d in h'.clients - {c};
      }
    }
    forall d | d in h'.clients ensures d < |h'.conns| {
      assert d == c || d in h.clients - {c};
    }
  }

  /** A step that changes no client, and no client's place in the map and under the lock. */
  lemma ConnsSame(h: Hub, h': Hub)
    requires ConnsInv(h) && h'.conns == h.conns && h'.clients == h.clients
    requires forall d :: h'.lockWriter == Pump(d) <==> h.lockWriter == Pump(d)
    ensures ConnsInv(h')
  {
    forall d | 0 <= d < |h'.conns| ensures Linked(h', d) {
      assert Linked(h, d);
    }
  }

  /** A step that leaves the tasks alone and, if any task visits, leaves the map alone. */
  lemma TasksSame(h: Hub, h': Hub)
    requires TasksInv(h) && h'.tasks == h.tasks && h'.lockReaders == h.lockReaders
    requires h.lockReaders == {} || h.clients <= h'.clients
    ensures TasksInv(h')
  {
    forall t | 0 <= t < |h'.tasks| ensures TaskInv(h', t) {
      assert TaskInv(h, t);
    }
  }

  lemma TasksFrame(h: Hub, h': Hub, t: TaskId)
    requires TasksInv(h) && t < |h.tasks| && |h'.tasks| == |h.tasks| && h'.clients == h.clients
    requires forall u :: 0 <= u < |h.tasks| && u != t ==> h'.tasks[u] == h.tasks[u]
    requires h'.lockReaders - {t} == h.lockReaders - {t}
    requires TaskInv(h', t)
    ensures TasksInv(h')
  {
    forall u | 0 <= u < |h'.tasks| ensures TaskInv(h', u) {
      if u != t {
        assert TaskInv(h, u);
        assert u in h'.lockReaders <==> u in h'.lockReaders - {t};
      }
    }
    forall u | u in h'.lockReaders ensures u < |h'.tasks| {
      assert u == t || u in h.lockReaders - {t};
    }
  }

  lemma ReadMoveKeepsConn(k: Conn, shutdownClosed: bool, input: ReadInput)
    requires ConnInv(k) && ReaderMove(k, shutdownClosed, input).Some?
    ensures var k' := ReaderMove(k, shutdownClosed, input).value;
            ConnInv(k') && (CountedConn(k') <==> CountedConn(k) || k.reader.Registered?)
  {
    if k.reader.Ponging? {
      TrySendKeepsOrder(k.send, k.reader.pong);
    } else {
      assert ReaderMove(k, shutdownClosed, input).value.send.(closed := k.send.closed) == k.send;
    }
  }

  /** The next step of the read pump is an Add that panics. */
  predicate ReaderTrips(h: Hub, c: ClientId)
    requires c < |h.conns|
  {
    h.conns[c].reader.Registered? && AddPanics(h)
  }

  /** The new state of the stepping client. */
  lemma ReaderKeepsConn(h: Hub, c: ClientId, input: ReadInput)
    requires ConnsInv(h) && h.fault == NoFault && c < |h.conns| && NextReader(h, c, input).Some?
    ensures ReaderTrips(h, c) ==> NextReader(h, c, input).value == h.(fault := AddBesideWait)
    ensures !ReaderTrips(h, c) ==>
              var h' := NextReader(h, c, input).value;
              && h'.fault == NoFault && ReaderMove(h.conns[c], h.shutdownClosed, input).Some?
              && h'.conns == h.conns[c := ReaderMove(h.conns[c], h.shutdownClosed, input).value]
              && h'.tasks == h.tasks && h'.lockReaders == h.lockReaders && h'.shutdown == h.shutdown
              && h'.shutdownClosed == h.shutdownClosed && h'.shutdownCalls == h.shutdownCalls
              && h'.waiter == h.waiter
              && h'.wg == h.wg + (if h.conns[c].reader.Registered? then 1 else 0)
  {
    assert ConnInv(h.conns[c]);
  }

  lemma ReaderKeepsLinks(h: Hub, c: ClientId, input: ReadInput)
    requires ConnsInv(h) && h.fault == NoFault && c < |h.conns| && NextReader(h, c, input).Some?
    requires !ReaderTrips(h, c)
    ensures ConnsInv(NextReader(h, c, input).value)
  {
    var h' := NextReader(h, c, input).value;
    ReaderKeepsConn(h, c, input);
    ReadMoveKeepsConn(h.conns[c], h.shutdownClosed, input);
    assert Linked(h, c);
    ConnsFrame(h, h', c, h'.conns[c]);
  }

  /** A panic of the wait group changes nothing else. */
  lemma FaultKeepsInv(h: Hub, fault: Fault)
    requires Inv(h) && h.fault == NoFault && (fault == AddBesideWait || fault == WaitGroupReused)
    ensures Inv(h.(fault := fault))
  {
    ConnsSame(h, h.(fault := fault));
    TasksSame(h, h.(fault := fault));
  }

  lemma ReaderKeepsInv(h: Hub, c: ClientId, input: ReadInput)
    requires Inv(h) && h.fault == NoFault && c < |h.conns| && NextReader(h, c, input).Some?
    ensures Inv(NextReader(h, c, input).value)
  {
    var h' := NextReader(h, c, input).value;
    ReaderKeepsConn(h, c, input);
    if ReaderTrips(h, c) {
      FaultKeepsInv(h, AddBesideWait);
    } else {
      assert Linked(h, c);
      ReaderKeepsLinks(h, c, input);
      ReadMoveKeepsConn(h.conns[c], h.shutdownClosed, input);
      PendingConn(h, c, h'.conns[c]);
      assert Pending(h') == Pending(SetConn(h, c, h'.conns[c]));
      TasksSame(h, h');
    }
  }

  lemma MoveKeepsConn(k: Conn, shutdownClosed: bool, input: WriteInput)
    requires ConnInv(k) && WriterMove(k, shutdownClosed, input).Some?
    ensures var k' := WriterMove(k, shutdownClosed, input).value;
            && ConnInv(k') && k'.reader == k.reader
            && (CountedConn(k') <==> CountedConn(k) && !k.writer.Returning?)
  {
  }

  lemma WriterKeepsInv(h: Hub, c: ClientId, input: WriteInput)
    requires Inv(h) && h.fault == NoFault && c < |h.conns| && NextWriter(h, c, input).Some?
    ensures Inv(NextWriter(h, c, input).value)
  {
    var k := h.conns[c];
    assert ConnInv(k) && Linked(h, c) && !ReadsZeroValue(k);
    var k' := WriterMove(k, h.shutdownClosed, input).value;
    MoveKeepsConn(k, h.shutdownClosed, input);
    TermAtMostSum(h.conns, c, ConnWeight());
    PendingConn(h, c, k');
    var h' := NextWriter(h, c, input).value;
    assert Pending(h') == Pending(SetConn(h, c, k'));
    ConnsFrame(h, h', c, k');
    TasksSame(h, h');
  }

  /** What a visit of Broadcast does to its client. */
  lemma VisitKeepsConns(h: Hub, c: ClientId, message: Message)
    requires ConnsInv(h) && c in h.clients && c < |h.conns|
    ensures var h' := SetConn(h, c, h.conns[c].(send := TrySend(h.conns[c].send, message).0));
            ConnsInv(h') && Pending(h') == Pending(h) && !h.conns[c].send.closed
  {
    assert ConnInv(h.conns[c]) && Linked(h, c);
    TrySendKeepsOrder(h.conns[c].send, message);
    var k := h.conns[c].(send := TrySend(h.conns[c].send, message).0);
    ConnsFrame(h, SetConn(h, c, k), c, k);
    PendingConn(h, c, k);
  }

  /** A visit of Broadcast. */
  lemma VisitKeepsInv(h: Hub, t: TaskId, c: ClientId)
    requires Inv(h) && h.fault == NoFault && t < |h.tasks| && h.tasks[t].pc.Visiting?
    requires c in h.tasks[t].pc.left
    ensures NextTask(h, t, Visit(c)).Some? && Inv(NextTask(h, t, Visit(c)).value)
  {
    var message, left := h.tasks[t].pc.message, h.tasks[t].pc.left;
    assert TaskInv(h, t);
    var h1 := SetTask(h, t, Visiting(message, left - {c}));
    ConnsSame(h, h1);
    VisitKeepsConns(h1, c, message);
    PendingTask(h, t, Visiting(message, left - {c}));
    TasksFrame(h, NextTask(h, t, Visit(c)).value, t);
  }

  /** Any other move of a task, first seen alone. */
  lemma QuietTask(h: Hub, t: TaskId, input: TaskInput)
    requires Inv(h) && h.fault == NoFault && t < |h.tasks| && NextTask(h, t, input).Some?
    requires h.tasks[t].pc.Visiting? ==> !input.Visit?
    ensures var h' := NextTask(h, t, input).value;
            var pc := h'.tasks[t].pc;
            && h' == SetTask(h, t, pc).(lockReaders := h'.lockReaders, wg := h'.wg, waiter := h'.waiter)
            && h'.lockReaders == (if pc.Visiting? then h.lockReaders + {t} else h.lockReaders - {t})
            && (pc.Visiting? ==> pc.left == h.clients && h.lockWriter == Nobody)
            && h'.wg == h.wg - (if h.tasks[t].pc.Exiting? && h.tasks[t].tracked then 1 else 0)
            && (pc.Ended? <==> h.tasks[t].pc.Exiting?)
            && h'.waiter == (if h'.wg == 0 < h.wg && h.waiter.Parked? then Releasing else h.waiter)
  {
    assert TaskInv(h, t);
    TermAtMostSum(h.tasks, t, TaskWeight());
  }

  lemma QuietTaskKeepsInv(h: Hub, t: TaskId, input: TaskInput)
    requires Inv(h) && h.fault == NoFault && t < |h.tasks| && NextTask(h, t, input).Some?
    requires h.tasks[t].pc.Visiting? ==> !input.Visit?
    ensures Inv(NextTask(h, t, input).value)
  {
    var h' := NextTask(h, t, input).value;
    QuietTask(h, t, input);
    PendingTask(h, t, h'.tasks[t].pc);
    ConnsSame(h, h');
    TasksFrame(h, h', t);
  }

  lemma TaskKeepsInv(h: Hub, t: TaskId, input: TaskInput)
    requires Inv(h) && h.fault == NoFault && t < |h.tasks| && NextTask(h, t, input).Some?
    ensures Inv(NextTask(h, t, input).value)
  {
    if h.tasks[t].pc.Visiting? && input.Visit? {
      VisitKeepsInv(h, t, input.client);
    } else {
      QuietTaskKeepsInv(h, t, input);
    }
  }

  lemma ShutdownKeepsInv(h: Hub, input: ShutdownInput)
    requires Inv(h) && h.fault == NoFault && NextShutdown(h, input).Some?
    ensures Inv(NextShutdown(h, input).value)
  {
    var h' := NextShutdown(h, input).value;
    TasksSame(h, h');
    if h.shutdown.ClosingSockets? && h.shutdown.left != {} {
      var c := input.client;
      assert ConnInv(h.conns[c]) && Linked(h, c);
      ConnsFrame(h, h', c, h'.conns[c]);
      PendingConn(h, c, h'.conns[c]);
      assert Pending(h') == Pending(SetConn(h, c, h'.conns[c]));
    } else {
      ConnsSame(h, h');
    }
  }

  lemma ConnsAppend(h: Hub, h': Hub, k: Conn)
    requires ConnsInv(h) && h'.conns == h.conns + [k] && k.reader.Upgraded? && ConnInv(k)
    requires h'.clients == h.clients && h'.lockWriter == h.lockWriter && h.lockWriter != Pump(|h.conns|)
    ensures ConnsInv(h')
  {
    forall d | 0 <= d < |h'.conns| ensures ConnInv(h'.conns[d]) && Linked(h', d) {
      if d < |h.conns| {
        assert ConnInv(h.conns[d]) && Linked(h, d);
      }
    }
  }

  lemma TasksAppend(h: Hub, h': Hub, t: Task)
    requires TasksInv(h) && h'.tasks == h.tasks + [t] && t.pc.Idle?
    requires h'.clients == h.clients && h'.lockReaders == h.lockReaders
    ensures TasksInv(h')
  {
    forall u | 0 <= u < |h'.tasks| ensures TaskInv(h', u) {
      if u < |h.tasks| {
        assert TaskInv(h, u);
      }
    }
  }

  lemma AcceptKeepsInv(h: Hub)
    requires Inv(h) && h.fault == NoFault
    ensures Inv(Next(h, Accept).value)
  {
    var k := ACCEPTED;
    var h' := h.(conns := h.conns + [k]);
    SumAppend(h.conns, k, ConnWeight());
    ConnsAppend(h, h', k);
    TasksSame(h, h');
    assert LockInv(h') && ShutdownInv(h');
  }

  lemma StartTaskKeepsInv(h: Hub, tracked: bool)
    requires Inv(h) && h.fault == NoFault
    ensures Inv(Next(h, StartTask(tracked)).value)
  {
    var t := Task(tracked, Idle);
    if tracked && AddPanics(h) {
      FaultKeepsInv(h, AddBesideWait);
      return;
    }
    var h' := h.(tasks := h.tasks + [t], wg := if tracked then h.wg + 1 else h.wg);
    SumAppend(h.tasks, t, TaskWeight());
    ConnsSame(h, h');
    TasksAppend(h, h', t);
    assert LockInv(h') && ShutdownInv(h');
  }

  lemma WaiterKeepsInv(h: Hub)
    requires Inv(h) && h.fault == NoFault && NextWaiter(h).Some?
    ensures Inv(NextWaiter(h).value)
  {
    var h' := NextWaiter(h).value;
    ConnsSame(h, h');
    TasksSame(h, h');
    assert Pending(h') == Pending(h);
  }

  lemma NextKeepsInv(h: Hub, step: Step)
    requires Inv(h) && Next(h, step).Some?
    ensures Inv(Next(h, step).value)
  {
    match step
    case Accept => AcceptKeepsInv(h);
    case ReaderStep(c, input) => ReaderKeepsInv(h, c, input);
    case WriterStep(c, input) => WriterKeepsInv(h, c, input);
    case StartTask(tracked) => StartTaskKeepsInv(h, tracked);
    case TaskStep(t, input) => TaskKeepsInv(h, t, input);
    case CallShutdown =>
      var h' := Next(h, step).value;
      ConnsSame(h, h');
      TasksSame(h, h');
    case ShutdownStep(input) => ShutdownKeepsInv(h, input);
    case WaiterStep => WaiterKeepsInv(h);
  }

  /** A path that starts well stays well. */
  lemma {:induction false} PathKeepsInv(hs: seq<Hub>, steps: seq<Step>, i: nat)
    requires Path(hs, steps) && Inv(hs[0]) && i < |hs|
    ensures Inv(hs[i])
  {
    if i > 0 {
      PathKeepsInv(hs, steps, i - 1);
      NextKeepsInv(hs[i - 1], steps[i - 1]);
    }
  }

  lemma PathBefore(h: Hub, step: Step, hs: seq<Hub>, steps: seq<Step>)
    requires Path(hs, steps) && Next(h, step) == Some(hs[0])
    ensures Path([h] + hs, [step] + steps)
  {
    var gs, all := [h] + hs, [step] + steps;
    forall i | 0 <= i < |all| ensures Next(gs[i], all[i]) == Some(gs[i + 1]) {
      if i > 0 {
        assert all[i] == steps[i - 1] && gs[i] == hs[i - 1] && gs[i + 1] == hs[i];
        assert Next(hs[i - 1], steps[i - 1]) == Some(hs[i]);
      }
    }
  }

  lemma EmptyInv()
    ensures Inv(EMPTY)
  {
    var h := EMPTY;
    assert Sum(h.conns, ConnWeight()) == 0 && Sum(h.tasks, TaskWeight()) == 0;
    assert ConnsInv(h);
    assert TasksInv(h);
  }

  lemma RunKeepsInv(hs: seq<Hub>, steps: seq<Step>, i: nat)
    requires Run(hs, steps) && i < |hs|
    ensures Inv(hs[i])
  {
    EmptyInv();
    PathKeepsInv(hs, steps, i);
  }

  // ---------------------------------------------------------------- the theorems

  function Calls(steps: seq<Step>): nat {
    if steps == [] then 0 else Calls(steps[..|steps| - 1]) + (if steps[|steps| - 1] == CallShutdown then 1 else 0)
  }

  /** The step is an Add. */
  predicate Adds(h: Hub, step: Step) {
    match step
    case ReaderStep(c, _) => c < |h.conns| && h.conns[c].reader.Registered?
    case StartTask(tracked) => tracked
    case _ => false
  }

  /** The step is a Done. */
  predicate Dones(h: Hub, step: Step) {
    match step
    case WriterStep(c, _) => c < |h.conns| && h.conns[c].writer.Returning?
    case TaskStep(t, _) => t < |h.tasks| && h.tasks[t].tracked && h.tasks[t].pc.Exiting?
    case _ => false
  }

  /** An Add comes after the Done that reached zero and before the waiter is let go, or the
      waiter, once let go, finds the counter above zero again. */
  predicate Reuses(h: Hub, step: Step) {
    || (Adds(h, step) && h.waiter.Releasing?)
    || (step == WaiterStep && h.waiter.Rechecking? && h.wg > 0)
  }

  /** A step that is a Done, or leaves the wait group alone, and is not Shutdown's. */
  predicate DonesAtMost(h: Hub, h': Hub, done: bool) {
    && h'.fault == NoFault && h'.shutdownCalls == h.shutdownCalls && h'.shutdown == h.shutdown
    && h'.shutdownClosed == h.shutdownClosed
    && h'.wg == (if done then h.wg - 1 else h.wg)
    && h'.waiter == (if done && h.wg == 1 && h.waiter.Parked? then Releasing else h.waiter)
  }

  lemma WriterOutcome(h: Hub, c: ClientId, input: WriteInput)
    requires Inv(h) && h.fault == NoFault && c < |h.conns| && NextWriter(h, c, input).Some?
    ensures DonesAtMost(h, NextWriter(h, c, input).value, h.conns[c].writer.Returning?)
  {
    assert ConnInv(h.conns[c]);
    TermAtMostSum(h.conns, c, ConnWeight());
  }

  lemma TaskOutcome(h: Hub, t: TaskId, input: TaskInput)
    requires Inv(h) && h.fault == NoFault && t < |h.tasks| && NextTask(h, t, input).Some?
    ensures DonesAtMost(h, NextTask(h, t, input).value, h.tasks[t].tracked && h.tasks[t].pc.Exiting?)
  {
    if h.tasks[t].pc.Visiting? && input.Visit? {
      assert TaskInv(h, t) && Linked(h, input.client) && ConnInv(h.conns[input.client]);
    } else {
      QuietTask(h, t, input);
    }
  }

  /** What a step does to the fault, the calls of Shutdown and the wait group. */
  lemma StepOutcome(h: Hub, step: Step)
    requires Inv(h) && Next(h, step).Some?
    ensures var h' := Next(h, step).value;
            && h'.shutdownCalls == h.shutdownCalls + (if step == CallShutdown then 1 else 0)
            && (h'.fault == NoFault <==> !(step == CallShutdown && h.shutdownClosed) && !Reuses(h, step))
            && (h'.fault == NoFault ==>
                  h'.wg == h.wg + (if Adds(h, step) then 1 else 0) - (if Dones(h, step) then 1 else 0))
  {
    match step
    case ReaderStep(c, input) => ReaderKeepsConn(h, c, input);
    case WriterStep(c, input) => WriterOutcome(h, c, input);
    case TaskStep(t, input) => TaskOutcome(h, t, input);
    case _ =>
  }

  lemma {:induction false} CallsAreCounted(hs: seq<Hub>, steps: seq<Step>, i: nat)
    requires Run(hs, steps) && i < |hs|
    ensures hs[i].shutdownCalls == Calls(steps[..i])
  {
    if i > 0 {
      CallsAreCounted(hs, steps, i - 1);
      assert steps[..i][..i - 1] == steps[..i - 1];
      RunKeepsInv(hs, steps, i - 1);
      assert Next(hs[i - 1], steps[i - 1]) == Some(hs[i]);
      StepOutcome(hs[i - 1], steps[i - 1]);
    }
  }

  /** In every interleaving the server panics if and only if Shutdown is called a second time
      or the wait group is used again while its waiter leaves: no goroutine sends on a closed
      client channel, no client channel is closed twice, the wait group never goes negative
      and no pump reads past a close. */
  lemma NoPanic(hs: seq<Hub>, steps: seq<Step>, i: nat)
    requires Run(hs, steps) && i < |hs|
    ensures hs[i].fault == NoFault <==>
              Calls(steps[..i]) <= 1 && forall m :: 0 <= m < i ==> !Reuses(hs[m], steps[m])
    ensures hs[i].fault in {NoFault, CloseOfClosedChannel, AddBesideWait, WaitGroupReused}
    ensures hs[i].fault == CloseOfClosedChannel ==> i > 0 && steps[i - 1] == CallShutdown
  {
    RunKeepsInv(hs, steps, i);
    CallsAreCounted(hs, steps, i);
    forall m | 0 <= m < i ensures hs[i].fault == NoFault ==> !Reuses(hs[m], steps[m]) {
      StepFaults(hs, steps, m);
      if m + 1 < i {
        StepFaults(hs, steps, m + 1);
      }
    }
    if hs[i].fault != NoFault {
      StepFaults(hs, steps, i - 1);
    }
  }

  lemma StepFaults(hs: seq<Hub>, steps: seq<Step>, m: nat)
    requires Run(hs, steps) && m < |steps|
    ensures hs[m].fault == NoFault
    ensures hs[m + 1].fault == NoFault ==> !Reuses(hs[m], steps[m])
    ensures hs[m + 1].fault != NoFault && !Reuses(hs[m], steps[m]) ==>
              steps[m] == CallShutdown && hs[m + 1].shutdownCalls > 1
    ensures hs[m + 1].fault == CloseOfClosedChannel ==> steps[m] == CallShutdown
  {
    RunKeepsInv(hs, steps, m);
    assert Next(hs[m], steps[m]) == Some(hs[m + 1]);
    StepOutcome(hs[m], steps[m]);
  }

  function CountAdds(hs: seq<Hub>, steps: seq<Step>, i: nat, j: nat): nat
    requires i <= j <= |steps| <= |hs|
  {
    if i == j then 0 else CountAdds(hs, steps, i, j - 1) + (if Adds(hs[j - 1], steps[j - 1]) then 1 else 0)
  }

  function CountDones(hs: seq<Hub>, steps: seq<Step>, i: nat, j: nat): nat
    requires i <= j <= |steps| <= |hs|
  {
    if i == j then 0 else CountDones(hs, steps, i, j - 1) + (if Dones(hs[j - 1], steps[j - 1]) then 1 else 0)
  }

  lemma {:induction false} WaitGroupSince(hs: seq<Hub>, steps: seq<Step>, i: nat, j: nat)
    requires Run(hs, steps) && i <= j < |hs| && hs[j].fault == NoFault
    ensures hs[j].wg == hs[i].wg + CountAdds(hs, steps, i, j) - CountDones(hs, steps, i, j)
  {
    if i < j {
      assert Next(hs[j - 1], steps[j - 1]) == Some(hs[j]);
      WaitGroupSince(hs, steps, i, j - 1);
      RunKeepsInv(hs, steps, j - 1);
      StepOutcome(hs[j - 1], steps[j - 1]);
    }
  }

  /** Step r is the Done that lets the waiter go. */
  predicate LetsGo(hs: seq<Hub>, steps: seq<Step>, r: nat)
    requires r < |steps| < |hs|
  {
    && Dones(hs[r], steps[r]) && hs[r].waiter.Parked? && hs[r].wg == 1
    && hs[r + 1].waiter.Releasing? && hs[r + 1].wg == 0
  }

  /** How the waiter's place changes. */
  lemma StepMovesWaiter(h: Hub, step: Step)
    requires Inv(h) && Next(h, step).Some? && Next(h, step).value.fault == NoFault
    ensures var h' := Next(h, step).value;
            h'.waiter == match h.waiter
                         case NotWaiting => if h'.shutdown.Waiting? then Calling else NotWaiting
                         case Calling => if step != WaiterStep then Calling else if h.wg == 0 then Returned else Parked
                         case Parked => if Dones(h, step) && h.wg == 1 then Releasing else Parked
                         case Releasing => if step == WaiterStep then Rechecking else Releasing
                         case Rechecking => if step == WaiterStep then Returned else Rechecking
                         case Returned => Returned
  {
    StepOutcome(h, step);
    match step
    case ReaderStep(c, input) => ReaderKeepsConn(h, c, input);
    case WriterStep(c, input) => WriterOutcome(h, c, input);
    case TaskStep(t, input) => TaskOutcome(h, t, input);
    case _ =>
  }

  /** How Shutdown's place changes: it returns only from its wait, and for good. */
  lemma StepMovesShutdown(h: Hub, step: Step)
    requires Inv(h) && Next(h, step).Some?
    ensures var h' := Next(h, step).value;
            && (h.shutdown.Finished? ==> h'.shutdown == h.shutdown)
            && (h'.shutdown.Finished? && !h.shutdown.Finished? ==> step.ShutdownStep? && h.shutdown.Waiting?)
            && (h.shutdown.Waiting? && !step.ShutdownStep? ==> h'.shutdown.Waiting?)
  {
    match step
    case ReaderStep(c, input) => ReaderKeepsConn(h, c, input);
    case WriterStep(c, input) => WriterOutcome(h, c, input);
    case TaskStep(t, input) => TaskOutcome(h, t, input);
    case _ =>
  }

  lemma {:induction false} LetGoByDone(hs: seq<Hub>, steps: seq<Step>, n: nat) returns (r: nat)
    requires Run(hs, steps) && n < |hs| && hs[n].fault == NoFault
    requires hs[n].waiter.Releasing? || hs[n].waiter.Rechecking?
    ensures r < n && LetsGo(hs, steps, r)
  {
    assert Next(hs[n - 1], steps[n - 1]) == Some(hs[n]);
    RunKeepsInv(hs, steps, n - 1);
    StepMovesWaiter(hs[n - 1], steps[n - 1]);
    StepOutcome(hs[n - 1], steps[n - 1]);
    if hs[n - 1].waiter.Parked? {
      r := n - 1;
    } else {
      r := LetGoByDone(hs, steps, n - 1);
    }
  }

  /** The waiter is let go by a Done that brings the counter to zero, and finds it so if and only
      if as many Dones as Adds came in between. */
  lemma WaiterFindsZeroIff(hs: seq<Hub>, steps: seq<Step>, n: nat) returns (r: nat)
    requires Run(hs, steps) && n < |steps| && steps[n] == WaiterStep && hs[n].waiter.Rechecking?
    ensures r < n && LetsGo(hs, steps, r)
    ensures hs[n + 1].fault == NoFault <==> CountAdds(hs, steps, r + 1, n) == CountDones(hs, steps, r + 1, n)
  {
    assert Next(hs[n], steps[n]) == Some(hs[n + 1]);
    r := LetGoByDone(hs, steps, n);
    WaitGroupSince(hs, steps, r + 1, n);
    RunKeepsInv(hs, steps, n);
  }

  /** Messages leave a client's channel in the order in which they were accepted, none is
      lost or repeated, and at most 256 wait. */
  lemma Fifo(hs: seq<Hub>, steps: seq<Step>, i: nat, c: ClientId)
    requires Run(hs, steps) && i < |hs| && c < |hs[i].conns|
    ensures var ch := hs[i].conns[c].send;
            ch.accepted == ch.taken + ch.buffer && |ch.buffer| <= 256
  {
    RunKeepsInv(hs, steps, i);
    assert ConnInv(hs[i].conns[c]);
  }

  lemma MapChange(h: Hub, step: Step)
    requires Inv(h) && Next(h, step).Some? && Next(h, step).value.clients != h.clients
    ensures step.ReaderStep? && h.lockWriter == Pump(step.client)
  {
    match step
    case ReaderStep(c, input) => assert Linked(h, c);
    case _ =>
  }

  /** The client map changes only under the write lock, while no task reads it. */
  lemma MapChangesUnderLock(hs: seq<Hub>, steps: seq<Step>, i: nat)
    requires Run(hs, steps) && i < |steps| && hs[i + 1].clients != hs[i].clients
    ensures hs[i].lockWriter != Nobody && hs[i].lockReaders == {}
    ensures forall t :: 0 <= t < |hs[i].tasks| ==> !hs[i].tasks[t].pc.Visiting?
  {
    RunKeepsInv(hs, steps, i);
    assert Next(hs[i], steps[i]) == Some(hs[i + 1]);
    MapChange(hs[i], steps[i]);
    forall t | 0 <= t < |hs[i].tasks| ensures !hs[i].tasks[t].pc.Visiting? {
      assert TaskInv(hs[i], t);
    }
  }

  lemma TaskGrows(h: Hub, t: TaskId, input: TaskInput, d: ClientId)
    requires t < |h.tasks| && d < |h.conns| && NextTask(h, t, input).Some?
    ensures var h' := NextTask(h, t, input).value; d < |h'.conns| && Grows(h.conns[d], h'.conns[d])
  {
  }

  lemma ReadMoveGrows(k: Conn, shutdownClosed: bool, input: ReadInput)
    requires ReaderMove(k, shutdownClosed, input).Some?
    ensures Grows(k, ReaderMove(k, shutdownClosed, input).value)
  {
  }

  lemma WriteMoveGrows(k: Conn, shutdownClosed: bool, input: WriteInput)
    requires WriterMove(k, shutdownClosed, input).Some?
    ensures Grows(k, WriterMove(k, shutdownClosed, input).value)
  {
  }

  lemma ReaderGrows(h: Hub, c: ClientId, input: ReadInput, d: ClientId)
    requires ConnsInv(h) && h.fault == NoFault && c < |h.conns| && d < |h.conns| && NextReader(h, c, input).Some?
    ensures var h' := NextReader(h, c, input).value; d < |h'.conns| && Grows(h.conns[d], h'.conns[d])
  {
    ReaderKeepsConn(h, c, input);
    if !ReaderTrips(h, c) {
      ReadMoveGrows(h.conns[c], h.shutdownClosed, input);
    }
  }

  lemma WriterGrows(h: Hub, c: ClientId, input: WriteInput, d: ClientId)
    requires ConnsInv(h) && c < |h.conns| && d < |h.conns| && NextWriter(h, c, input).Some?
    ensures var h' := NextWriter(h, c, input).value; d < |h'.conns| && Grows(h.conns[d], h'.conns[d])
  {
    assert ConnInv(h.conns[c]);
    WriteMoveGrows(h.conns[c], h.shutdownClosed, input);
  }

  lemma ShutdownGrows(h: Hub, input: ShutdownInput, d: ClientId)
    requires d < |h.conns| && NextShutdown(h, input).Some?
    ensures var h' := NextShutdown(h, input).value; d < |h'.conns| && Grows(h.conns[d], h'.conns[d])
  {
  }

  lemma StepGrows(h: Hub, step: Step, c: ClientId)
    requires Inv(h) && Next(h, step).Some? && c < |h.conns|
    ensures var h' := Next(h, step).value; c < |h'.conns| && Grows(h.conns[c], h'.conns[c])
  {
    match step
    case ReaderStep(d, input) => ReaderGrows(h, d, input, c);
    case WriterStep(d, input) => WriterGrows(h, d, input, c);
    case TaskStep(t, input) => TaskGrows(h, t, input, c);
    case ShutdownStep(input) => ShutdownGrows(h, input, c);
    case _ =>
  }

  lemma RunGrows(hs: seq<Hub>, steps: seq<Step>, i: nat, c: ClientId)
    requires Run(hs, steps) && i < |steps| && c < |hs[i].conns|
    ensures c < |hs[i + 1].conns| && Grows(hs[i].conns[c], hs[i + 1].conns[c])
  {
    RunKeepsInv(hs, steps, i);
    assert Next(hs[i], steps[i]) == Some(hs[i + 1]);
    StepGrows(hs[i], steps[i], c);
  }

  lemma GrowsOn(a: Conn, b: Conn, c: Conn)
    requires Grows(a, b) && Grows(b, c)
    ensures Grows(a, c)
  {
  }

  /** What has been accepted, taken or written stays so for the rest of the run. */
  lemma {:induction false} HistoryOnlyGrows(hs: seq<Hub>, steps: seq<Step>, i: nat, j: nat, c: ClientId)
    requires Run(hs, steps) && i <= j < |hs| && c < |hs[i].conns|
    ensures c < |hs[j].conns| && Grows(hs[i].conns[c], hs[j].conns[c])
  {
    if i < j {
      HistoryOnlyGrows(hs, steps, i, j - 1, c);
      RunGrows(hs, steps, j - 1, c);
      GrowsOn(hs[i].conns[c], hs[j - 1].conns[c], hs[j].conns[c]);
    }
  }

  /** The inner loop of writePump neither blocks nor reads a zero value, even when the
      channel is closed while it drains: it takes the next accepted message. */
  lemma DrainNeverBlocks(hs: seq<Hub>, steps: seq<Step>, i: nat, c: ClientId, input: WriteInput)
    requires Run(hs, steps) && i < |hs| && hs[i].fault == NoFault && c < |hs[i].conns|
    requires hs[i].conns[c].writer.Draining? && hs[i].conns[c].writer.left > 0
    ensures var next := Next(hs[i], WriterStep(c, input));
            var ch := hs[i].conns[c].send;
            && next.Some? && next.value.fault == NoFault
            && |ch.taken| < |ch.accepted|
            && next.value.conns[c].send.taken == ch.taken + [ch.accepted[|ch.taken|]]
  {
    RunKeepsInv(hs, steps, i);
    assert ConnInv(hs[i].conns[c]);
    ReceiveKeepsOrder(hs[i].conns[c].send);
  }

  /** A write pump that leaves because it sees its channel closed has taken and written every
      message the channel ever accepted. */
  lemma CloseLosesNothing(hs: seq<Hub>, steps: seq<Step>, i: nat, c: ClientId)
    requires Run(hs, steps) && i < |steps| && steps[i] == WriterStep(c, SeeClosed)
    requires c < |hs[i].conns| && hs[i].conns[c].writer.Selecting?
    ensures c < |hs[i + 1].conns| && hs[i + 1].conns[c].writer == Returning
    ensures var k := hs[i + 1].conns[c]; k.send.taken == k.send.accepted == k.written
  {
    RunKeepsInv(hs, steps, i);
    assert ConnInv(hs[i].conns[c]);
    assert Next(hs[i], steps[i]) == Some(hs[i + 1]);
  }

  /** What a client is sent is a prefix of what its channel accepted, in order and without a
      gap. A pump that is still running holds back at most the message in its hands. */
  lemma WrittenInOrder(hs: seq<Hub>, steps: seq<Step>, i: nat, c: ClientId)
    requires Run(hs, steps) && i < |hs| && c < |hs[i].conns|
    ensures var k := hs[i].conns[c];
            && k.written <= k.send.taken <= k.send.accepted && |k.send.taken| <= |k.written| + 1
            && (k.writer.Selecting? ==> k.send.accepted == k.written + k.send.buffer)
  {
    RunKeepsInv(hs, steps, i);
    assert ConnInv(hs[i].conns[c]);
  }

  /** A visit of Broadcast reaches a client that is still in the map and either delivers
      the message or finds 256 messages waiting. */
  lemma BroadcastDeliversOrFull(hs: seq<Hub>, steps: seq<Step>, i: nat, t: TaskId, c: ClientId)
    requires Run(hs, steps) && i < |hs| && hs[i].fault == NoFault && t < |hs[i].tasks|
    requires hs[i].tasks[t].pc.Visiting? && c in hs[i].tasks[t].pc.left
    ensures c in hs[i].clients && c < |hs[i].conns|
    ensures var next := Next(hs[i], TaskStep(t, Visit(c)));
            var before := hs[i].conns[c].send;
            && next.Some? && next.value.fault == NoFault
            && (next.value.conns[c].send.accepted == before.accepted + [hs[i].tasks[t].pc.message]
                || (next.value.conns[c].send == before && |before.buffer| == 256))
  {
    RunKeepsInv(hs, steps, i);
    assert TaskInv(hs[i], t) && Linked(hs[i], c) && ConnInv(hs[i].conns[c]);
    TrySendKeepsOrder(hs[i].conns[c].send, hs[i].tasks[t].pc.message);
  }

  /** The wait group counts exactly the write pumps between Add and Done and the consumers
      that have not returned. */
  lemma WaitGroupIsExact(hs: seq<Hub>, steps: seq<Step>, i: nat)
    requires Run(hs, steps) && i < |hs|
    ensures hs[i].wg == Sum(hs[i].conns, ConnWeight()) + Sum(hs[i].tasks, TaskWeight()) && hs[i].wg >= 0
  {
    RunKeepsInv(hs, steps, i);
  }
}
