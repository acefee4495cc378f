/** Shutdown of the WebSocket hub while clients, consumers, broadcasts and ticks still arrive:
    only arrivals without end can keep it from its end. */
module HubArrivals {
  import opened Sums
  import opened Channels
  import opened Hub
  import opened HubSafety
  import opened HubWait
  import opened HubShutdown

  /** How many steps of the continuation are arrivals. */
  function Arrivals(hs: seq<Hub>, steps: seq<Step>, i: nat): nat
    requires i <= |steps| <= |hs|
  {
    if i == 0 then 0
    else Arrivals(hs, steps, i - 1) + (if NothingNew(hs[i - 1], steps[i - 1]) then 0 else 1)
  }

  function Size(h: Hub): nat {
    |h.conns| + |h.tasks|
  }

  // ---------------------------------------------------------------- what an arrival adds

  lemma {:induction false} RanksOfOneMore(tasks: seq<Task>, clients: nat)
    ensures Sum(tasks, TaskRanks(clients + 1)) <= Sum(tasks, TaskRanks(clients)) + 6 * |tasks|
  {
    if tasks != [] {
      RanksOfOneMore(tasks[..|tasks| - 1], clients);
    }
  }

  lemma AcceptRaises(h: Hub)
    requires Inv(h) && h.fault == NoFault
    ensures Measure(Next(h, Accept).value) <= Measure(h) + 87 + 6 * |h.tasks|
  {
    SumAppend(h.conns, ACCEPTED, ConnRanks());
    RanksOfOneMore(h.tasks, |h.conns|);
  }

  lemma StartRaises(h: Hub, tracked: bool)
    requires Inv(h) && h.fault == NoFault
    ensures Measure(Next(h, StartTask(tracked)).value) <= Measure(h) + 2
  {
    SumAppend(h.tasks, Task(tracked, Idle), TaskRanks(|h.conns|));
  }

  lemma TickRaises(h: Hub, c: ClientId)
    requires Inv(h) && h.fault == NoFault && c < |h.conns| && h.conns[c].writer.Selecting?
    ensures NextWriter(h, c, Tick) == Some(SetConn(h, c, h.conns[c].(writer := Pinging)))
    ensures Measure(NextWriter(h, c, Tick).value) <= Measure(h) + 1
  {
    MeasureConn(h, c, h.conns[c].(writer := Pinging));
  }

  lemma BeginRaises(h: Hub, t: TaskId, message: Message)
    requires Inv(h) && h.fault == NoFault && t < |h.tasks| && h.tasks[t].pc.Idle?
    ensures NextTask(h, t, Begin(message)) == Some(SetTask(h, t, WantingLock(message)))
    ensures Measure(NextTask(h, t, Begin(message)).value) <= Measure(h) + 6 * |h.conns| + 2
  {
    MeasureTask(h, t, WantingLock(message));
  }

  lemma ArrivalRaises(h: Hub, step: Step)
    requires Inv(h) && h.shutdownClosed && Next(h, step).Some? && !NothingNew(h, step)
    ensures Measure(Next(h, step).value) <= Measure(h) + 87 + 6 * Size(h)
    ensures Size(Next(h, step).value) <= Size(h) + 1
  {
    match step
    case Accept => AcceptRaises(h);
    case StartTask(tracked) => StartRaises(h, tracked);
    case WriterStep(c, _) => TickRaises(h, c);
    case TaskStep(t, input) => BeginRaises(h, t, input.message);
    case CallShutdown =>
  }

  lemma OthersKeepSize(h: Hub, step: Step)
    requires Inv(h) && Next(h, step).Some? && NothingNew(h, step)
    ensures Size(Next(h, step).value) == Size(h)
  {
    QuietKeepsCount(h, step);
    match step
    case ReaderStep(c, input) => ReaderKeepsConn(h, c, input);
    case _ =>
  }

  // ---------------------------------------------------------------- along a continuation

  /** How many steps more than without them n arrivals can bring about. */
  function Allowance(n: nat, size: nat): nat {
    n * (88 + 6 * (size + n))
  }

  lemma OneMoreArrival(n: nat, size: nat)
    ensures Allowance(n + 1, size) >= Allowance(n, size) + 88 + 6 * (size + n)
  {
    assert (n + 1) * (88 + 6 * (size + n + 1)) == n * (88 + 6 * (size + n)) + 6 * n + (88 + 6 * (size + n + 1));
  }

  /** The bounds after n arrivals in i steps. */
  ghost predicate Within(start: Hub, h: Hub, n: nat, i: nat) {
    Size(h) <= Size(start) + n && Measure(h) + i <= Measure(start) + Allowance(n, Size(start))
  }

  lemma OneMoreStep(start: Hub, h: Hub, step: Step, n: nat, i: nat)
    requires Inv(h) && h.shutdownClosed && Next(h, step).Some? && Within(start, h, n, i)
    ensures Within(start, Next(h, step).value, n + (if NothingNew(h, step) then 0 else 1), i + 1)
  {
    if NothingNew(h, step) {
      TailMeasure(h, step);
      OthersKeepSize(h, step);
    } else {
      ArrivalRaises(h, step);
      OneMoreArrival(n, Size(start));
    }
  }

  lemma {:induction false} PathStaysShutDown(hs: seq<Hub>, steps: seq<Step>, i: nat)
    requires Path(hs, steps) && i < |hs| && Inv(hs[0]) && hs[0].shutdownClosed
    ensures hs[i].shutdownClosed
  {
    if i > 0 {
      PathStaysShutDown(hs, steps, i - 1);
      PathKeepsInv(hs, steps, i - 1);
      assert Next(hs[i - 1], steps[i - 1]) == Some(hs[i]);
      StaysShutDown(hs[i - 1], steps[i - 1]);
    }
  }

  lemma {:induction false} ArrivalsSoFar(hs: seq<Hub>, steps: seq<Step>, i: nat)
    requires Path(hs, steps) && i < |hs| && Inv(hs[0]) && hs[0].shutdownClosed
    ensures Within(hs[0], hs[i], Arrivals(hs, steps, i), i)
  {
    if i > 0 {
      ArrivalsSoFar(hs, steps, i - 1);
      PathKeepsInv(hs, steps, i - 1);
      PathStaysShutDown(hs, steps, i - 1);
      assert Next(hs[i - 1], steps[i - 1]) == Some(hs[i]);
      OneMoreStep(hs[0], hs[i - 1], steps[i - 1], Arrivals(hs, steps, i - 1), i - 1);
    }
  }

  /** From any state that the server can reach after Shutdown closed h.ShutdownCh, under every
      schedule and whatever arrives: a continuation with n arrivals has a length bounded by n
      and the state alone, and where only arrivals can continue it the wait group is zero, the
      wait is over and Shutdown has returned, unless the server has panicked. */
  lemma ArrivalsBoundTheEnd(before: seq<Hub>, past: seq<Step>, hs: seq<Hub>, steps: seq<Step>)
    requires Run(before, past) && before[|past|].shutdownClosed && before[|past|].fault == NoFault
    requires Path(hs, steps) && hs[0] == before[|past|]
    ensures var n := Arrivals(hs, steps, |steps|);
            |steps| <= Measure(hs[0]) + n * (88 + 6 * (|hs[0].conns| + |hs[0].tasks| + n))
    ensures var last := hs[|steps|];
            (forall step :: !Enabled(last, step)) && last.fault == NoFault ==>
              last.wg == 0 && last.waiter.Returned? && last.shutdown.Finished?
  {
    RunKeepsInv(before, past, |past|);
    PathKeepsInv(hs, steps, |steps|);
    PathStaysShutDown(hs, steps, |steps|);
    ArrivalsSoFar(hs, steps, |steps|);
    var last := hs[|steps|];
    if last.fault == NoFault {
      StuckMeansDone(last);
    }
  }
}
