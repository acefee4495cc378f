/** The two loops over the client map, Broadcast's and Shutdown's, while every other
    goroutine goes on. */
module HubLoops {
  import opened Channels
  import opened Hub
  import opened HubSafety

  // ---------------------------------------------------------------- Broadcast

  /** A step of anyone else leaves a task where it is. */
  lemma OthersLeaveTask(h: Hub, step: Step, t: TaskId)
    requires Inv(h) && Next(h, step).Some? && t < |h.tasks|
    requires !(step.TaskStep? && step.task == t)
    ensures var h' := Next(h, step).value; t < |h'.tasks| && h'.tasks[t] == h.tasks[t]
  {
    match step
    case ReaderStep(c, input) => ReaderKeepsConn(h, c, input);
    case _ =>
  }

  /** While a task holds the read lock the map stands still, and only its own visits shorten
      what it has left. */
  lemma VisitingStep(h: Hub, step: Step, t: TaskId)
    requires Inv(h) && Next(h, step).Some? && t < |h.tasks| && h.tasks[t].pc.Visiting?
    requires t < |Next(h, step).value.tasks| && Next(h, step).value.tasks[t].pc.Visiting?
    ensures var h' := Next(h, step).value;
            var pc, pc' := h.tasks[t].pc, h'.tasks[t].pc;
            && h'.clients == h.clients && pc'.message == pc.message
            && (step.TaskStep? && step.task == t ==>
                  step.move.Visit? && step.move.client in pc.left && pc'.left == pc.left - {step.move.client})
            && (!(step.TaskStep? && step.task == t) ==> pc'.left == pc.left)
  {
    assert TaskInv(h, t);
    if Next(h, step).value.clients != h.clients {
      MapChange(h, step);
    }
    if step.TaskStep? && step.task == t {
      assert forall c :: c in h.tasks[t].pc.left ==> Linked(h, c) && ConnInv(h.conns[c]);
    } else {
      OthersLeaveTask(h, step, t);
    }
  }

  /** Task t takes the read lock at step i and still holds it before step j. */
  ghost predicate Iterates(hs: seq<Hub>, steps: seq<Step>, t: TaskId, i: nat, j: nat) {
    && Run(hs, steps) && i < j < |hs|
    && t < |hs[i].tasks| && hs[i].tasks[t].pc.WantingLock?
    && forall m :: i < m <= j ==> t < |hs[m].tasks| && hs[m].tasks[t].pc.Visiting?
  }

  ghost predicate Visited(steps: seq<Step>, t: TaskId, c: ClientId, i: nat, j: nat)
    requires j <= |steps|
  {
    exists m :: i < m < j && steps[m] == TaskStep(t, Visit(c))
  }

  lemma IterationStarts(hs: seq<Hub>, steps: seq<Step>, t: TaskId, i: nat)
    requires Iterates(hs, steps, t, i, i + 1)
    ensures hs[i + 1].clients == hs[i].clients && hs[i + 1].tasks[t].pc.left == hs[i].clients
    ensures hs[i + 1].tasks[t].pc.message == hs[i].tasks[t].pc.message
  {
    RunKeepsInv(hs, steps, i);
    assert Next(hs[i], steps[i]) == Some(hs[i + 1]);
    if !(steps[i].TaskStep? && steps[i].task == t) {
      OthersLeaveTask(hs[i], steps[i], t);
    }
  }

  lemma IterationStep(hs: seq<Hub>, steps: seq<Step>, t: TaskId, i: nat, j: nat)
    requires Iterates(hs, steps, t, i, j + 1) && i < j
    ensures var pc, pc' := hs[j].tasks[t].pc, hs[j + 1].tasks[t].pc;
            && hs[j + 1].clients == hs[j].clients && pc'.message == pc.message
            && forall c :: c in pc'.left <==> c in pc.left && steps[j] != TaskStep(t, Visit(c))
  {
    RunKeepsInv(hs, steps, j);
    assert Next(hs[j], steps[j]) == Some(hs[j + 1]);
    VisitingStep(hs[j], steps[j], t);
  }

  /** What is left of the clients is what has not been visited. */
  ghost predicate LeftIsUnvisited(
    clients: set<ClientId>, left: set<ClientId>, steps: seq<Step>, t: TaskId, i: nat, j: nat)
    requires j <= |steps|
  {
    left <= clients && forall c :: c in clients ==> (c in left <==> !Visited(steps, t, c, i, j))
  }

  lemma OneMoreVisit(
    clients: set<ClientId>, left: set<ClientId>, left': set<ClientId>, steps: seq<Step>, t: TaskId, i: nat, j: nat)
    requires i < j < |steps| && LeftIsUnvisited(clients, left, steps, t, i, j)
    requires forall c :: c in left' <==> c in left && steps[j] != TaskStep(t, Visit(c))
    ensures LeftIsUnvisited(clients, left', steps, t, i, j + 1)
  {
    forall c | c in clients ensures c in left' <==> !Visited(steps, t, c, i, j + 1) {
      if Visited(steps, t, c, i, j) {
        var m :| i < m < j && steps[m] == TaskStep(t, Visit(c));
        assert i < m < j + 1;
      } else if Visited(steps, t, c, i, j + 1) {
        assert steps[j] == TaskStep(t, Visit(c));
      }
    }
  }

  lemma {:induction false} IterationSoFar(hs: seq<Hub>, steps: seq<Step>, t: TaskId, i: nat, j: nat)
    requires Iterates(hs, steps, t, i, j)
    ensures hs[j].clients == hs[i].clients
    ensures hs[j].tasks[t].pc.message == hs[i].tasks[t].pc.message
    ensures LeftIsUnvisited(hs[i].clients, hs[j].tasks[t].pc.left, steps, t, i, j)
  {
    if j == i + 1 {
      IterationStarts(hs, steps, t, i);
    } else {
      assert Iterates(hs, steps, t, i, j - 1);
      IterationSoFar(hs, steps, t, i, j - 1);
      IterationStep(hs, steps, t, i, j - 1);
      OneMoreVisit(hs[i].clients, hs[j - 1].tasks[t].pc.left, hs[j].tasks[t].pc.left, steps, t, i, j - 1);
    }
  }

  /** A broadcast that runs to its end, among any steps of others, visits exactly the clients
      that were in the map when it took the lock, and each of them once: a client is visited
      only as long as it has not been. */
  lemma BroadcastReachesEveryone(hs: seq<Hub>, steps: seq<Step>, t: TaskId, i: nat, j: nat)
    requires Iterates(hs, steps, t, i, j) && j < |steps|
    requires t < |hs[j + 1].tasks| && !hs[j + 1].tasks[t].pc.Visiting?
    ensures hs[j].clients == hs[i].clients
    ensures forall c :: c in hs[i].clients ==> Visited(steps, t, c, i, j)
    ensures forall m, c :: i < m < j && steps[m] == TaskStep(t, Visit(c)) ==>
              c in hs[i].clients && !Visited(steps, t, c, i, m)
  {
    IterationSoFar(hs, steps, t, i, j);
    RunKeepsInv(hs, steps, j);
    RunKeepsInv(hs, steps, j + 1);
    assert Next(hs[j], steps[j]) == Some(hs[j + 1]);
    if !(steps[j].TaskStep? && steps[j].task == t) {
      OthersLeaveTask(hs[j], steps[j], t);
    }
    assert hs[j].tasks[t].pc.left == {};
    forall m, c | i < m < j && steps[m] == TaskStep(t, Visit(c))
      ensures c in hs[i].clients && !Visited(steps, t, c, i, m)
    {
      IterationSoFar(hs, steps, t, i, m);
      RunKeepsInv(hs, steps, m);
      assert Next(hs[m], steps[m]) == Some(hs[m + 1]);
      VisitingStep(hs[m], steps[m], t);
    }
  }

  // ---------------------------------------------------------------- Shutdown

  /** While Shutdown holds the write lock: the connections that it has dealt with. */
  ghost predicate ClosedSoFar(h: Hub) {
    h.shutdown.ClosingSockets? ==>
      forall c :: c in h.clients && c !in h.shutdown.left ==> c < |h.conns| && h.conns[c].socketClosed
  }

  lemma ShutdownMoves(h: Hub, step: Step)
    requires Inv(h) && Next(h, step).Some? && !step.ShutdownStep?
    ensures var h' := Next(h, step).value;
            h.shutdown.ClosingSockets? || h'.shutdown.ClosingSockets? ==>
              h'.shutdown == h.shutdown && h'.clients == h.clients
  {
    match step
    case ReaderStep(c, input) =>
      ReaderKeepsConn(h, c, input);
      if Next(h, step).value.clients != h.clients {
        MapChange(h, step);
      }
    case _ =>
  }

  lemma StepClosedSoFar(h: Hub, step: Step)
    requires Inv(h) && Next(h, step).Some? && ClosedSoFar(h)
    ensures ClosedSoFar(Next(h, step).value)
  {
    var h' := Next(h, step).value;
    if !step.ShutdownStep? {
      ShutdownMoves(h, step);
    }
    if h'.shutdown.ClosingSockets? {
      forall c | c in h'.clients && c !in h'.shutdown.left ensures c < |h'.conns| && h'.conns[c].socketClosed {
        assert c < |h.conns|;
        StepGrows(h, step, c);
      }
    }
  }

  lemma {:induction false} RunClosedSoFar(hs: seq<Hub>, steps: seq<Step>, i: nat)
    requires Run(hs, steps) && i < |hs|
    ensures ClosedSoFar(hs[i])
  {
    if i > 0 {
      RunClosedSoFar(hs, steps, i - 1);
      RunKeepsInv(hs, steps, i - 1);
      assert Next(hs[i - 1], steps[i - 1]) == Some(hs[i]);
      StepClosedSoFar(hs[i - 1], steps[i - 1]);
    }
  }

  /** When Shutdown lets go of the lock, the connection of every client in the map is closed,
      and stays so for the rest of the run. */
  lemma ShutdownClosesConnections(hs: seq<Hub>, steps: seq<Step>, i: nat, j: nat, c: ClientId)
    requires Run(hs, steps) && i < j < |hs| && hs[i].shutdown.ClosingSockets? && !hs[i + 1].shutdown.ClosingSockets?
    requires c in hs[i + 1].clients
    ensures c < |hs[j].conns| && hs[j].conns[c].socketClosed
  {
    RunClosedSoFar(hs, steps, i);
    RunKeepsInv(hs, steps, i);
    assert Next(hs[i], steps[i]) == Some(hs[i + 1]);
    if !steps[i].ShutdownStep? {
      ShutdownMoves(hs[i], steps[i]);
    }
    HistoryOnlyGrows(hs, steps, i + 1, j, c);
  }
}
