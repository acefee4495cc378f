/** What the hub's goroutines go on to do: when a pump may leave, what blocks whom, and that a
    client whose I/O succeeds is sent everything. */
module HubProgress {
  import opened Channels
  import opened Hub
  import opened HubSafety
  import opened HubShutdown

  // ---------------------------------------------------------------- when a write pump leaves

  /** The three ways out of writePump. */
  predicate PumpLeaves(h: Hub, step: Step, c: ClientId)
    requires c < |h.conns|
  {
    var k := h.conns[c];
    && step.WriterStep? && step.client == c
    && match step.write
       case SeeClosed => k.writer.Selecting? && k.send.closed && k.send.buffer == []
       case SeeShutdown => k.writer.Selecting? && h.shutdownClosed
       case IoError => k.writer.Opening? || k.writer.Flushing? || k.writer.Pinging?
       case _ => false
  }

  predicate Running(k: Conn) {
    !k.writer.NotStarted? && !k.writer.Returning? && !k.writer.Stopped?
  }

  lemma WriterOf(h: Hub, c: ClientId, input: WriteInput, d: ClientId)
    requires Inv(h) && h.fault == NoFault && c < |h.conns| && d < |h.conns| && NextWriter(h, c, input).Some?
    ensures var h' := NextWriter(h, c, input).value;
            && |h'.conns| == |h.conns| && !ReadsZeroValue(h.conns[c])
            && (d != c ==> h'.conns[d] == h.conns[d])
            && Some(h'.conns[c]) == WriterMove(h.conns[c], h.shutdownClosed, input)
  {
    assert ConnInv(h.conns[c]);
  }

  lemma ReaderLeavesWriter(h: Hub, c: ClientId, input: ReadInput, d: ClientId)
    requires Inv(h) && h.fault == NoFault && c < |h.conns| && d < |h.conns| && NextReader(h, c, input).Some?
    ensures var h' := NextReader(h, c, input).value;
            && |h'.conns| == |h.conns|
            && (h'.conns[d].writer == h.conns[d].writer
                || (h.conns[d].writer.NotStarted? && h'.conns[d].writer.Selecting?))
  {
    ReaderKeepsConn(h, c, input);
    assert ConnInv(h.conns[c]);
  }

  lemma TaskLeavesWriters(h: Hub, t: TaskId, input: TaskInput, d: ClientId)
    requires t < |h.tasks| && d < |h.conns| && NextTask(h, t, input).Some?
    ensures var h' := NextTask(h, t, input).value; |h'.conns| == |h.conns| && h'.conns[d].writer == h.conns[d].writer
  {
  }

  lemma StepLeavesIff(h: Hub, step: Step, c: ClientId)
    requires Inv(h) && Next(h, step).Some? && c < |h.conns|
    ensures var h' := Next(h, step).value;
            && c < |h'.conns|
            && (Running(h.conns[c]) && !Running(h'.conns[c]) <==> PumpLeaves(h, step, c))
            && (h.conns[c].writer.NotStarted? && !h'.conns[c].writer.NotStarted? ==> Running(h'.conns[c]))
  {
    match step
    case WriterStep(d, input) => WriterOf(h, d, input, c);
    case ReaderStep(d, input) => ReaderLeavesWriter(h, d, input, c);
    case TaskStep(t, input) => TaskLeavesWriters(h, t, input, c);
    case _ =>
  }

  /** Over every run a running write pump stops running in a step if and only if it sees its
      channel closed and empty, sees the shutdown, or an I/O call of it fails. */
  lemma PumpLeavesIff(hs: seq<Hub>, steps: seq<Step>, i: nat, c: ClientId)
    requires Run(hs, steps) && i < |steps| && c < |hs[i].conns|
    ensures c < |hs[i + 1].conns|
    ensures Running(hs[i].conns[c]) && !Running(hs[i + 1].conns[c]) <==> PumpLeaves(hs[i], steps[i], c)
  {
    RunKeepsInv(hs, steps, i);
    assert Next(hs[i], steps[i]) == Some(hs[i + 1]);
    StepLeavesIff(hs[i], steps[i], c);
  }

  /** A pump that is gone went one of those ways. */
  lemma {:induction false} GonePumpLeft(hs: seq<Hub>, steps: seq<Step>, j: nat, c: ClientId) returns (i: nat)
    requires Run(hs, steps) && j < |hs| && c < |hs[j].conns|
    requires hs[j].conns[c].writer.Returning? || hs[j].conns[c].writer.Stopped?
    ensures i < j && c < |hs[i].conns| && PumpLeaves(hs[i], steps[i], c)
  {
    RunKeepsInv(hs, steps, j - 1);
    assert Next(hs[j - 1], steps[j - 1]) == Some(hs[j]);
    if c < |hs[j - 1].conns| {
      StepLeavesIff(hs[j - 1], steps[j - 1], c);
      if Running(hs[j - 1].conns[c]) {
        i := j - 1;
      } else {
        i := GonePumpLeft(hs, steps, j - 1, c);
      }
    } else {
      NewIsAccepted(hs[j - 1], steps[j - 1], c);
      assert false;
    }
  }

  /** What ServeWS makes of an upgraded connection: an open channel with nothing in it. */
  const NEW_CLIENT := Conn(Upgraded, NotStarted, Channel([], false, [], []), [], false)

  /** A client that was not there before has just been accepted. */
  lemma NewIsAccepted(h: Hub, step: Step, c: ClientId)
    requires Inv(h) && Next(h, step).Some? && |h.conns| <= c < |Next(h, step).value.conns|
    ensures step == Accept && c == |h.conns| && Next(h, step).value.conns[c] == NEW_CLIENT
  {
    match step
    case WriterStep(d, input) => WriterOf(h, d, input, d);
    case ReaderStep(d, input) => ReaderLeavesWriter(h, d, input, d);
    case _ =>
  }

  // ---------------------------------------------------------------- a write pump goes on

  /** What a write pump does next, as long as its I/O succeeds on an open connection: it takes the
      oldest message, writes it and as many others as are buffered then, flushes the frame, and
      is back at its select, as it is after a ping. */
  lemma PumpGoesOn(hs: seq<Hub>, steps: seq<Step>, i: nat, c: ClientId)
    requires Run(hs, steps) && i < |hs| && hs[i].fault == NoFault && c < |hs[i].conns|
    ensures var h, k := hs[i], hs[i].conns[c];
            match k.writer
            case Selecting =>
              && Next(h, WriterStep(c, Tick)) == Some(SetConn(h, c, k.(writer := Pinging)))
              && (k.send.buffer != [] ==>
                    var next := Next(h, WriterStep(c, TakeMessage));
                    next.Some? && next.value.fault == NoFault
                    && next.value.conns[c].writer == Opening(k.send.buffer[0])
                    && next.value.conns[c].send.buffer == k.send.buffer[1..])
            case Opening(message) =>
              Next(h, WriterStep(c, IoOk))
              == Some(SetConn(h, c, k.(writer := Draining(|k.send.buffer|), written := k.written + [message])))
            case Draining(left) =>
              var next := Next(h, WriterStep(c, IoOk));
              if left == 0 then next == Some(SetConn(h, c, k.(writer := Flushing)))
              else
                k.send.buffer != [] && next.Some? && next.value.fault == NoFault
                && next.value.conns[c].writer == Draining(left - 1)
                && next.value.conns[c].written == k.written + [k.send.buffer[0]]
                && next.value.conns[c].send.buffer == k.send.buffer[1..]
            case Flushing =>
              Next(h, WriterStep(c, IoOk))
              == if k.socketClosed then None else Some(SetConn(h, c, k.(writer := Selecting)))
            case Pinging =>
              Next(h, WriterStep(c, IoOk))
              == if k.socketClosed then None else Some(SetConn(h, c, k.(writer := Selecting)))
            case _ => true
  {
    RunKeepsInv(hs, steps, i);
    assert ConnInv(hs[i].conns[c]);
  }

  /** And each way out is open where its cause is there: the pump goes to its deferred Wg.Done, and
      then it is gone and counted no more. */
  lemma PumpCanLeave(hs: seq<Hub>, steps: seq<Step>, i: nat, step: Step, c: ClientId)
    requires Run(hs, steps) && i < |hs| && hs[i].fault == NoFault && c < |hs[i].conns|
    ensures var h, k := hs[i], hs[i].conns[c];
            && (PumpLeaves(h, step, c) ==> Next(h, step) == Some(SetConn(h, c, k.(writer := Returning))))
            && (k.writer.Returning? && step.WriterStep? && step.client == c ==>
                  var next := Next(h, step);
                  next.Some? && next.value.fault == NoFault && next.value.wg == h.wg - 1
                  && next.value.conns == h.conns[c := k.(writer := Stopped)])
  {
    RunKeepsInv(hs, steps, i);
    assert ConnInv(hs[i].conns[c]);
    if hs[i].conns[c].writer.Returning? && step.WriterStep? && step.client == c {
      WriterOutcome(hs[i], c, step.write);
    }
  }

  /** The step of a pump whose I/O succeeds. */
  function GoOn(k: Conn): WriteInput {
    if k.writer.Selecting? then TakeMessage else IoOk
  }

  lemma PumpStep(h: Hub, c: ClientId)
    requires Inv(h) && h.fault == NoFault && c < |h.conns| && Running(h.conns[c]) && !h.conns[c].socketClosed
    requires !(h.conns[c].writer.Selecting? && h.conns[c].send.buffer == [])
    ensures var k := h.conns[c];
            var next := Next(h, WriterStep(c, GoOn(k)));
            && next.Some? && next.value.fault == NoFault && |next.value.conns| == |h.conns|
            && Running(next.value.conns[c]) && !next.value.conns[c].socketClosed
            && next.value.conns[c].send.accepted == k.send.accepted
            && Measure(next.value) < Measure(h)
  {
    assert ConnInv(h.conns[c]);
    WriterDecreases(h, c, GoOn(h.conns[c]));
  }

  /** The steps are all of one pump, with I/O that succeeds. */
  predicate OwnSteps(steps: seq<Step>, c: ClientId) {
    forall i :: 0 <= i < |steps| ==> steps[i] == WriterStep(c, TakeMessage) || steps[i] == WriterStep(c, IoOk)
  }

  lemma {:induction false} PumpWritesAll(h: Hub, c: ClientId) returns (hs: seq<Hub>, steps: seq<Step>)
    requires Inv(h) && h.fault == NoFault && c < |h.conns| && Running(h.conns[c]) && !h.conns[c].socketClosed
    ensures Path(hs, steps) && hs[0] == h && OwnSteps(steps, c)
    ensures var last := hs[|steps|];
            && last.fault == NoFault && c < |last.conns| && last.conns[c].writer.Selecting?
            && last.conns[c].written == last.conns[c].send.accepted == h.conns[c].send.accepted
    decreases Measure(h)
  {
    var k := h.conns[c];
    assert ConnInv(k);
    if k.writer.Selecting? && k.send.buffer == [] {
      hs, steps := [h], [];
    } else {
      var step := WriterStep(c, GoOn(k));
      PumpStep(h, c);
      NextKeepsInv(h, step);
      var more, rest := PumpWritesAll(Next(h, step).value, c);
      PathBefore(h, step, more, rest);
      hs, steps := [h] + more, [step] + rest;
    }
  }

  /** In every reachable state a client with a running pump and an open connection, whether or
      not it is being shut down, can be sent every message its channel has accepted: its pump
      alone, if its I/O succeeds, writes them all and comes back to its select. */
  lemma EverythingIsWritten(past: seq<Hub>, done: seq<Step>, c: ClientId) returns (hs: seq<Hub>, steps: seq<Step>)
    requires Run(past, done) && past[|done|].fault == NoFault && c < |past[|done|].conns|
    requires Running(past[|done|].conns[c]) && !past[|done|].conns[c].socketClosed
    ensures Path(hs, steps) && hs[0] == past[|done|] && OwnSteps(steps, c)
    ensures var last := hs[|steps|];
            && last.fault == NoFault && c < |last.conns| && last.conns[c].writer.Selecting?
            && last.conns[c].written == last.conns[c].send.accepted == past[|done|].conns[c].send.accepted
  {
    RunKeepsInv(past, done, |done|);
    hs, steps := PumpWritesAll(past[|done|], c);
  }

  // ---------------------------------------------------------------- a read pump goes on

  /** The two ways out of readPump. */
  predicate ReaderLeaves(h: Hub, step: Step, c: ClientId)
    requires c < |h.conns|
  {
    && step.ReaderStep? && step.client == c
    && ((h.conns[c].reader.Reading? && step.read.ReadError?) || (h.conns[c].reader.Looping? && h.shutdownClosed))
  }

  /** Between the start of readPump and its deferred unregisterClient. */
  predicate Serving(k: Conn) {
    k.reader.Looping? || k.reader.Reading? || k.reader.Ponging?
  }

  lemma OtherReadersStay(h: Hub, step: Step, c: ClientId)
    requires Inv(h) && Next(h, step).Some? && c < |h.conns| && !(step.ReaderStep? && step.client == c)
    ensures var h' := Next(h, step).value; c < |h'.conns| && h'.conns[c].reader == h.conns[c].reader
  {
    match step
    case WriterStep(d, input) =>
      WriterOf(h, d, input, c);
      assert ConnInv(h.conns[d]);
      MoveKeepsConn(h.conns[d], h.shutdownClosed, input);
    case ReaderStep(d, input) => ReaderKeepsConn(h, d, input);
    case _ =>
  }

  /** Over every run a client that is being served stops being served in a step if and only if
      reading from its connection fails or its reader sees the shutdown. */
  lemma ReaderLeavesIff(hs: seq<Hub>, steps: seq<Step>, i: nat, c: ClientId)
    requires Run(hs, steps) && i < |steps| && c < |hs[i].conns|
    ensures c < |hs[i + 1].conns|
    ensures Serving(hs[i].conns[c]) && !Serving(hs[i + 1].conns[c]) <==> ReaderLeaves(hs[i], steps[i], c)
  {
    RunKeepsInv(hs, steps, i);
    var h, step := hs[i], steps[i];
    assert Next(h, step) == Some(hs[i + 1]);
    if step.ReaderStep? && step.client == c {
      ReaderKeepsConn(h, c, step.read);
    } else {
      OtherReadersStay(h, step, c);
    }
  }

  /** What a read pump does next: without a shutdown it reads; a frame that is no ping changes
      nothing; a ping is answered with a pong, which its channel accepts unless 256 messages
      wait, and nothing of it panics. */
  lemma ReaderGoesOn(hs: seq<Hub>, steps: seq<Step>, i: nat, c: ClientId, input: ReadInput)
    requires Run(hs, steps) && i < |hs| && hs[i].fault == NoFault && c < |hs[i].conns| && Serving(hs[i].conns[c])
    ensures var h, k := hs[i], hs[i].conns[c];
            var next := Next(h, ReaderStep(c, input));
            match k.reader
            case Looping => next == Some(SetConn(h, c, k.(reader := if h.shutdownClosed then Leaving else Reading)))
            case Reading =>
              next == Some(SetConn(h, c, k.(reader := match input
                                                      case ReadError => Leaving
                                                      case PingFrame(pong) => Ponging(pong)
                                                      case OtherFrame => Looping)))
            case Ponging(pong) =>
              && next.Some? && next.value.fault == NoFault && next.value.conns[c].reader.Looping?
              && (if |k.send.buffer| < 256 then next.value.conns[c].send.accepted == k.send.accepted + [pong]
                  else next.value.conns[c].send == k.send)
            case _ => true
  {
    RunKeepsInv(hs, steps, i);
    assert ConnInv(hs[i].conns[c]);
    if hs[i].conns[c].reader.Ponging? {
      TrySendKeepsOrder(hs[i].conns[c].send, hs[i].conns[c].reader.pong);
    }
  }

  // ---------------------------------------------------------------- what blocks whom

  /** In every reachable state: a reader that has not returned can go on, whatever it reads,
      unless it is about to lock the map and somebody holds the lock. */
  lemma ReaderBlockedIff(hs: seq<Hub>, steps: seq<Step>, i: nat, c: ClientId, input: ReadInput)
    requires Run(hs, steps) && i < |hs| && hs[i].fault == NoFault && c < |hs[i].conns|
    ensures var h, k := hs[i], hs[i].conns[c];
            Next(h, ReaderStep(c, input)).None? <==>
              || k.reader.Gone?
              || ((k.reader.Upgraded? || k.reader.Leaving?) && !(h.lockWriter == Nobody && h.lockReaders == {}))
  {
  }

  /** A write pump that has started and not returned can always go on, if only by its next ping or
      a failing call. */
  lemma PumpBlockedIff(hs: seq<Hub>, steps: seq<Step>, i: nat, c: ClientId)
    requires Run(hs, steps) && i < |hs| && hs[i].fault == NoFault && c < |hs[i].conns|
    ensures (forall input :: Next(hs[i], WriterStep(c, input)).None?) <==>
              hs[i].conns[c].writer.NotStarted? || hs[i].conns[c].writer.Stopped?
  {
    RunKeepsInv(hs, steps, i);
    var h, k := hs[i], hs[i].conns[c];
    assert ConnInv(k);
    if !k.writer.NotStarted? && !k.writer.Stopped? {
      assert Next(h, WriterStep(c, if k.writer.Selecting? then Tick else IoError)).Some?;
    }
  }

  /** A task that has not ended can go on unless it wants the lock and a writer holds it. */
  lemma TaskBlockedIff(hs: seq<Hub>, steps: seq<Step>, i: nat, t: TaskId)
    requires Run(hs, steps) && i < |hs| && hs[i].fault == NoFault && t < |hs[i].tasks|
    ensures (forall move :: Next(hs[i], TaskStep(t, move)).None?) <==>
              var pc := hs[i].tasks[t].pc; pc.Ended? || (pc.WantingLock? && hs[i].lockWriter != Nobody)
  {
    RunKeepsInv(hs, steps, i);
    var h, pc := hs[i], hs[i].tasks[t].pc;
    assert TaskInv(h, t);
    if pc.Visiting? && pc.left != {} {
      var c :| c in pc.left;
      assert c in h.clients && Linked(h, c) && ConnInv(h.conns[c]);
      assert Next(h, TaskStep(t, Visit(c))).Some?;
    } else if !pc.Ended? && !(pc.WantingLock? && h.lockWriter != Nobody) {
      assert Next(h, TaskStep(t, Proceed)).Some?;
    }
  }

  /** How it goes on: it begins the broadcast that it is given, has every client of the map to
      visit once it holds the lock, and is ready for the next broadcast, without the lock, when
      none is left. */
  lemma TaskGoesOn(hs: seq<Hub>, steps: seq<Step>, i: nat, t: TaskId)
    requires Run(hs, steps) && i < |hs| && hs[i].fault == NoFault && t < |hs[i].tasks|
    ensures var h, pc := hs[i], hs[i].tasks[t].pc;
            var next := Next(h, TaskStep(t, Proceed));
            match pc
            case Idle =>
              && next == Some(SetTask(h, t, Exiting))
              && forall message :: Next(h, TaskStep(t, Begin(message))) == Some(SetTask(h, t, WantingLock(message)))
            case WantingLock(message) =>
              h.lockWriter == Nobody ==>
                next.Some? && next.value.fault == NoFault && next.value.tasks[t].pc == Visiting(message, h.clients)
            case Visiting(_, left) =>
              left == {} ==>
                && next.Some? && next.value.fault == NoFault
                && next.value.tasks[t].pc.Idle? && next.value.lockReaders == h.lockReaders - {t}
            case _ => true
  {
    RunKeepsInv(hs, steps, i);
    assert TaskInv(hs[i], t);
  }

  /** Shutdown can go on, at the least by its timeout, unless it wants the lock and somebody holds
      it. With the lock it closes what the map holds and lets the waiter go; then it reports success
      once the wait is over, and may give up at any time. */
  lemma ShutdownBlockedIff(hs: seq<Hub>, steps: seq<Step>, i: nat)
    requires Run(hs, steps) && i < |hs| && hs[i].fault == NoFault
    ensures var h := hs[i];
            (forall stop :: Next(h, ShutdownStep(stop)).None?) <==>
              || h.shutdown.NotCalled? || h.shutdown.Finished?
              || (h.shutdown.WantingWriteLock? && !(h.lockWriter == Nobody && h.lockReaders == {}))
    ensures var h := hs[i];
            var next := Next(h, ShutdownStep(Continue));
            match h.shutdown
            case WantingWriteLock =>
              next.Some? ==> next.value == h.(shutdown := ClosingSockets(h.clients), lockWriter := Stopper)
            case ClosingSockets(left) =>
              next
              == if left == {} then Some(h.(shutdown := Waiting, lockWriter := Nobody, waiter := Calling)) else None
            case Waiting =>
              && next == (if h.waiter.Returned? then Some(h.(shutdown := Finished(true))) else None)
              && Next(h, ShutdownStep(Timeout)) == Some(h.(shutdown := Finished(false)))
            case _ => true
  {
    RunKeepsInv(hs, steps, i);
    var h := hs[i];
    if h.shutdown.ClosingSockets? && h.shutdown.left != {} {
      var c :| c in h.shutdown.left;
      assert c in h.clients && Linked(h, c);
      assert Next(h, ShutdownStep(CloseSocket(c))).Some?;
    } else if h.shutdown.Waiting? {
      assert Next(h, ShutdownStep(Timeout)).Some?;
    } else {
      assert h.shutdown.ClosingSockets? ==> Next(h, ShutdownStep(Continue)).Some?;
      assert h.shutdown.WantingWriteLock? && LockFree(h) ==> Next(h, ShutdownStep(Continue)).Some?;
    }
  }

  /** The goroutine in which it waits goes on from when Shutdown lets go of the lock until it has
      returned, and is blocked meanwhile only where somebody is counted. */
  lemma WaiterBlockedIff(hs: seq<Hub>, steps: seq<Step>, i: nat)
    requires Run(hs, steps) && i < |hs| && hs[i].fault == NoFault
    ensures var h := hs[i];
            && (Next(h, WaiterStep).None? <==> h.waiter.NotWaiting? || h.waiter.Parked? || h.waiter.Returned?)
            && (h.waiter.Parked? ==> h.wg > 0)
            && (h.waiter.NotWaiting? <==>
                  h.shutdown.NotCalled? || h.shutdown.WantingWriteLock? || h.shutdown.ClosingSockets?)
  {
    RunKeepsInv(hs, steps, i);
  }

  /** In every reachable state a client may connect, a task may start, unless that panics, and
      Shutdown may be called. */
  lemma AlwaysOpen(hs: seq<Hub>, steps: seq<Step>, i: nat, tracked: bool)
    requires Run(hs, steps) && i < |hs| && hs[i].fault == NoFault
    ensures var h := hs[i];
            && Next(h, Accept) == Some(h.(conns := h.conns + [NEW_CLIENT]))
            && Next(h, StartTask(tracked)) ==
                 Some(if tracked && h.waiter.Releasing? then h.(fault := AddBesideWait)
                      else h.(tasks := h.tasks + [Task(tracked, Idle)], wg := h.wg + if tracked then 1 else 0))
            && var called := Next(h, CallShutdown);
               called.Some? && called.value.shutdownClosed
               && (h.shutdown.NotCalled? ==>
                     called == Some(h.(shutdownClosed := true, shutdown := WantingWriteLock,
                                       shutdownCalls := h.shutdownCalls + 1)))
               && (!h.shutdown.NotCalled? ==> called.value.fault == CloseOfClosedChannel)
  {
    RunKeepsInv(hs, steps, i);
  }

  // ---------------------------------------------------------------- from connecting to leaving

  /** Five steps of one reader. */
  lemma FiveSteps(h: seq<Hub>, c: ClientId, input: ReadInput) returns (steps: seq<Step>)
    requires |h| == 6 && forall i :: 0 <= i < 5 ==> Next(h[i], ReaderStep(c, input)) == Some(h[i + 1])
    ensures Path(h, steps) && steps == seq(5, _ => ReaderStep(c, input))
  {
    steps := seq(5, _ => ReaderStep(c, input));
  }

  /** A client that has connected can be served: where nobody holds the lock, five steps of its own
      put it in the map, count it, start its pump and its reader. */
  lemma ClientIsServed(past: seq<Hub>, done: seq<Step>, c: ClientId, input: ReadInput)
    returns (hs: seq<Hub>, steps: seq<Step>)
    requires Run(past, done) && past[|done|].fault == NoFault && c < |past[|done|].conns|
    requires var h := past[|done|];
             h.conns[c].reader.Upgraded? && LockFree(h) && !h.waiter.Releasing?
    ensures Path(hs, steps) && hs[0] == past[|done|] && steps == seq(5, _ => ReaderStep(c, input))
    ensures var h := past[|done|];
            hs[5] == SetConn(h, c, h.conns[c].(reader := Looping, writer := Selecting))
                     .(clients := h.clients + {c}, wg := h.wg + 1)
  {
    var h, k, step := past[|done|], past[|done|].conns[c], ReaderStep(c, input);
    var h1 := SetConn(h, c, k.(reader := RegisterLocked)).(lockWriter := Pump(c));
    assert Next(h, step) == Some(h1);
    var h2 := SetConn(h1, c, k.(reader := RegisterInserted)).(clients := h.clients + {c});
    assert Next(h1, step) == Some(h2);
    var h3 := SetConn(h2, c, k.(reader := Registered)).(lockWriter := Nobody);
    assert Next(h2, step) == Some(h3);
    var h4 := SetConn(h3, c, k.(reader := Counted)).(wg := h.wg + 1);
    assert Next(h3, step) == Some(h4);
    var h5 := SetConn(h4, c, k.(reader := Looping, writer := Selecting));
    assert Next(h4, step) == Some(h5);
    hs := [h, h1, h2, h3, h4, h5];
    steps := FiveSteps(hs, c, input);
  }

  lemma Removal(h: Hub, c: ClientId, input: ReadInput) returns (hs: seq<Hub>, steps: seq<Step>)
    requires h.fault == NoFault && c < |h.conns| && h.conns[c].reader.Leaving? && !h.conns[c].send.closed && LockFree(h)
    ensures Path(hs, steps) && hs[0] == h && steps == seq(5, _ => ReaderStep(c, input))
    ensures var k := h.conns[c];
            hs[5] == SetConn(h, c, k.(reader := Gone, send := k.send.(closed := true), socketClosed := true))
                     .(clients := h.clients - {c})
  {
    var k, step := h.conns[c], ReaderStep(c, input);
    var h1 := SetConn(h, c, k.(reader := UnregisterLocked)).(lockWriter := Pump(c));
    assert Next(h, step) == Some(h1);
    var h2 := SetConn(h1, c, k.(reader := UnregisterDeleted)).(clients := h.clients - {c});
    assert Next(h1, step) == Some(h2);
    var h3 := SetConn(h2, c, k.(reader := ClosingChannel)).(lockWriter := Nobody);
    assert Next(h2, step) == Some(h3);
    var h4 := SetConn(h3, c, k.(reader := ClosingSocket, send := k.send.(closed := true)));
    assert Next(h3, step) == Some(h4);
    var h5 := SetConn(h4, c, k.(reader := Gone, send := k.send.(closed := true), socketClosed := true));
    assert Next(h4, step) == Some(h5);
    hs := [h, h1, h2, h3, h4, h5];
    steps := FiveSteps(hs, c, input);
  }

  /** And one that leaves is removed: where nobody holds the lock, five steps of its own take it
      out of the map, close its channel and then its connection. */
  lemma ClientIsRemoved(past: seq<Hub>, done: seq<Step>, c: ClientId, input: ReadInput)
    returns (hs: seq<Hub>, steps: seq<Step>)
    requires Run(past, done) && past[|done|].fault == NoFault && c < |past[|done|].conns|
    requires past[|done|].conns[c].reader.Leaving? && LockFree(past[|done|])
    ensures Path(hs, steps) && hs[0] == past[|done|] && steps == seq(5, _ => ReaderStep(c, input))
    ensures var h, k := past[|done|], past[|done|].conns[c];
            hs[5] == SetConn(h, c, k.(reader := Gone, send := k.send.(closed := true), socketClosed := true))
                     .(clients := h.clients - {c})
  {
    RunKeepsInv(past, done, |done|);
    assert ConnInv(past[|done|].conns[c]);
    hs, steps := Removal(past[|done|], c, input);
  }

  // ---------------------------------------------------------------- whose step changes what

  lemma TaskTouches(h: Hub, t: TaskId, move: TaskInput, c: ClientId)
    requires t < |h.tasks| && c < |h.conns| && NextTask(h, t, move).Some?
    ensures var k, k' := h.conns[c], NextTask(h, t, move).value.conns[c];
            k' != k ==> move == Visit(c) && h.tasks[t].pc.Visiting?
                        && k' == k.(send := TrySend(k.send, h.tasks[t].pc.message).0)
  {
  }

  /** Over every run a client changes only by a step of its own reader or pump, by a visit of
      Broadcast, which offers its channel the message, or by Shutdown, which closes its
      connection. */
  lemma OthersTouch(hs: seq<Hub>, steps: seq<Step>, i: nat, c: ClientId)
    requires Run(hs, steps) && i < |steps| && c < |hs[i].conns|
    ensures c < |hs[i + 1].conns|
    ensures var h, k, k' := hs[i], hs[i].conns[c], hs[i + 1].conns[c];
            k' != k ==>
              match steps[i]
              case ReaderStep(d, _) => d == c
              case WriterStep(d, _) => d == c
              case TaskStep(t, move) =>
                && move == Visit(c) && t < |h.tasks| && h.tasks[t].pc.Visiting?
                && k' == k.(send := TrySend(k.send, h.tasks[t].pc.message).0)
              case ShutdownStep(stop) => stop == CloseSocket(c) && k' == k.(socketClosed := true)
              case _ => false
  {
    RunKeepsInv(hs, steps, i);
    assert Next(hs[i], steps[i]) == Some(hs[i + 1]);
    match steps[i]
    case WriterStep(d, input) => WriterOf(hs[i], d, input, c);
    case ReaderStep(d, input) => ReaderKeepsConn(hs[i], d, input);
    case TaskStep(t, move) => TaskTouches(hs[i], t, move, c);
    case _ =>
  }
}
