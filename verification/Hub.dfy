/** The WebSocket hub as a transition system. Every goroutine (the read pump and the write
    pump of each client, the tasks that broadcast, Shutdown and the goroutine in which it
    waits) has a program counter, and one step performs one access to what they share: the
    client map, its read-write lock, a client's channel, its connection, the wait group or
    the shutdown channel. A run-time panic of the Go program, recovered or not, is a state
    with a fault, from which no step leaves. */
module Hub {
  import opened Sums
  import opened Channels

  type ClientId = nat
  type TaskId = nat

  /** ServeWS up to its end, including the deferred unregisterClient of readPump. */
  datatype ReaderPc =
    | Upgraded              // the client exists, registerClient is about to lock
    | RegisterLocked        // holds the write lock
    | RegisterInserted      // in the map, still holds the write lock
    | Registered            // about to call Wg.Add(1)
    | Counted               // about to start writePump
    | Looping               // at the select of readPump
    | Reading               // inside ReadMessage
    | Ponging(pong: Message) // about to send the answer to a ping
    | Leaving               // unregisterClient is about to lock
    | UnregisterLocked      // holds the write lock
    | UnregisterDeleted     // out of the map, still holds the write lock
    | ClosingChannel        // about to close client.Send
    | ClosingSocket         // about to close the connection
    | Gone

  datatype WriterPc =
    | NotStarted
    | Selecting             // at the select of writePump
    | Opening(message: Message) // took one message, about to call NextWriter
    | Draining(left: nat)   // the inner loop over len(client.Send)
    | Flushing              // about to close the frame writer
    | Pinging               // the ticker fired
    | Returning             // about to call Wg.Done
    | Stopped

  /** `written` is what the pump has written to the connection. */
  datatype Conn = Conn(
    reader: ReaderPc, writer: WriterPc, send: Channel, written: seq<Message>, socketClosed: bool)

  const ACCEPTED := Conn(Upgraded, NotStarted, FRESH, [], false)

  /** A goroutine that calls Broadcast: the consumer started by StartConsumer, which is
      tracked by the wait group, or any other caller. */
  datatype TaskPc =
    | Idle
    | WantingLock(message: Message)
    | Visiting(message: Message, left: set<ClientId>) // holds the read lock, `left` not yet visited
    | Exiting
    | Ended

  datatype Task = Task(tracked: bool, pc: TaskPc)

  datatype ShutdownPc =
    | NotCalled
    | WantingWriteLock
    | ClosingSockets(left: set<ClientId>) // holds the write lock
    | Waiting
    | Finished(drained: bool)

  /** The goroutine that calls h.Wg.Wait and then closes `done`. The Done that brings the
      counter to zero first only lowers it; letting the waiter go is a second access, after
      which the waiter looks at the counter once more. */
  datatype WaiterPc =
    | NotWaiting            // not started yet
    | Calling               // about to call h.Wg.Wait
    | Parked                // counted among those that wait
    | Releasing             // the counter reached zero, the waiter is about to be let go
    | Rechecking            // let go, about to look at the counter again
    | Returned              // `done` is closed

  datatype LockHolder = Nobody | Pump(client: ClientId) | Stopper

  datatype Fault = NoFault | SendOnClosedChannel | CloseOfClosedChannel | NegativeWaitGroup | ZeroValueRead
                   | AddBesideWait | WaitGroupReused

  datatype Hub = Hub(
    clients: set<ClientId>,    // the keys of h.Clients
    conns: seq<Conn>,          // every client ever accepted, by identity
    tasks: seq<Task>,
    lockWriter: LockHolder,    // h.Mu
    lockReaders: set<TaskId>,
    wg: int,                   // h.Wg
    waiter: WaiterPc,
    shutdownClosed: bool,      // h.ShutdownCh
    shutdown: ShutdownPc,
    shutdownCalls: nat,
    fault: Fault)

  const EMPTY := Hub({}, [], [], Nobody, {}, 0, NotWaiting, false, NotCalled, 0, NoFault)

  /** What the network hands to a read pump inside ReadMessage. */
  datatype ReadInput = ReadError | PingFrame(pong: Message) | OtherFrame

  /** What a write pump's select picks, or what its I/O call returns. */
  datatype WriteInput = TakeMessage | SeeClosed | Tick | SeeShutdown | IoOk | IoError

  datatype TaskInput = Begin(message: Message) | Visit(client: ClientId) | Proceed

  datatype ShutdownInput = CloseSocket(client: ClientId) | Continue | Timeout

  datatype Step =
    | Accept
    | ReaderStep(client: ClientId, read: ReadInput)
    | WriterStep(client: ClientId, write: WriteInput)
    | StartTask(tracked: bool)
    | TaskStep(task: TaskId, move: TaskInput)
    | CallShutdown
    | ShutdownStep(stop: ShutdownInput)
    | WaiterStep

  datatype Option<T> = None | Some(value: T)

  predicate LockFree(h: Hub) {
    h.lockWriter == Nobody && h.lockReaders == {}
  }

  function SetConn(h: Hub, c: ClientId, k: Conn): Hub
    requires c < |h.conns|
  {
    h.(conns := h.conns[c := k])
  }

  /** ServeWS, registerClient, readPump, handleClientPing and unregisterClient, as far as they
      concern their own client. */
  function ReaderMove(k: Conn, shutdownClosed: bool, input: ReadInput): Option<Conn> {
    match k.reader
    case Upgraded => Some(k.(reader := RegisterLocked))
    case RegisterLocked => Some(k.(reader := RegisterInserted))
    case RegisterInserted => Some(k.(reader := Registered))
    case Registered => Some(k.(reader := Counted))
    case Counted => Some(k.(reader := Looping, writer := Selecting))
    case Looping => Some(k.(reader := if shutdownClosed then Leaving else Reading))
    case Reading =>
      (match input
       case ReadError => Some(k.(reader := Leaving))
       case PingFrame(pong) => Some(k.(reader := Ponging(pong)))
       case OtherFrame => Some(k.(reader := Looping)))
    case Ponging(pong) => Some(k.(reader := Looping, send := TrySend(k.send, pong).0))
    case Leaving => Some(k.(reader := UnregisterLocked))
    case UnregisterLocked => Some(k.(reader := UnregisterDeleted))
    case UnregisterDeleted => Some(k.(reader := ClosingChannel))
    case ClosingChannel => Some(k.(reader := ClosingSocket, send := k.send.(closed := true)))
    case ClosingSocket => Some(k.(reader := Gone, socketClosed := true))
    case Gone => None
  }

  function NextReader(h: Hub, c: ClientId, input: ReadInput): Option<Hub>
    requires c < |h.conns|
  {
    var k := h.conns[c];
    if k.reader.Ponging? && k.send.closed then Some(h.(fault := SendOnClosedChannel))
    else if k.reader.ClosingChannel? && k.send.closed then Some(h.(fault := CloseOfClosedChannel))
    else if k.reader.Registered? && AddPanics(h) then Some(h.(fault := AddBesideWait))
    else
      match ReaderMove(k, h.shutdownClosed, input)
      case None => None
      case Some(k') => ReaderEffect(SetConn(h, c, k'), c, k.reader)
  }

  /** Add panics when it finds a waiter beside a counter of zero. */
  predicate AddPanics(h: Hub) {
    h.waiter.Releasing?
  }

  /** What a move from a place of the read pump does to the map, the lock and the wait group;
      None where it has to wait for the lock. */
  function ReaderEffect(h: Hub, c: ClientId, from: ReaderPc): Option<Hub> {
    match from
    case Upgraded => if LockFree(h) then Some(h.(lockWriter := Pump(c))) else None
    case RegisterLocked => Some(h.(clients := h.clients + {c}))
    case RegisterInserted => Some(h.(lockWriter := Nobody))
    case Registered => Some(h.(wg := h.wg + 1))
    case Leaving => if LockFree(h) then Some(h.(lockWriter := Pump(c))) else None
    case UnregisterLocked => Some(h.(clients := h.clients - {c}))
    case UnregisterDeleted => Some(h.(lockWriter := Nobody))
    case _ => Some(h)
  }

  /** writePump, as far as it concerns its own client: None where it has to wait. Writing
      to a closed connection fails when the frame is flushed. */
  function WriterMove(k: Conn, shutdownClosed: bool, input: WriteInput): Option<Conn> {
    match k.writer
    case NotStarted => None
    case Selecting =>
      (match input
       case TakeMessage =>
         if k.send.buffer != [] then Some(k.(writer := Opening(k.send.buffer[0]), send := Receive(k.send))) else None
       case SeeClosed =>
         if k.send.buffer == [] && k.send.closed then Some(k.(writer := Returning)) else None
       case Tick => Some(k.(writer := Pinging))
       case SeeShutdown => if shutdownClosed then Some(k.(writer := Returning)) else None
       case _ => None)
    case Opening(message) =>
      (match input
       case IoOk => Some(k.(writer := Draining(|k.send.buffer|), written := k.written + [message]))
       case IoError => Some(k.(writer := Returning))
       case _ => None)
    case Draining(left) =>
      if left == 0 then Some(k.(writer := Flushing))
      else if k.send.buffer != [] then
        Some(k.(writer := Draining(left - 1), send := Receive(k.send), written := k.written + [k.send.buffer[0]]))
      else None
    case Flushing => AfterWrite(k, input)
    case Pinging => AfterWrite(k, input)
    case Returning => Some(k.(writer := Stopped))
    case Stopped => None
  }

  function AfterWrite(k: Conn, input: WriteInput): Option<Conn> {
    match input
    case IoOk => if k.socketClosed then None else Some(k.(writer := Selecting))
    case IoError => Some(k.(writer := Returning))
    case _ => None
  }

  /** The inner loop of writePump would write what a receive from a closed, empty channel
      yields. */
  predicate ReadsZeroValue(k: Conn) {
    k.writer.Draining? && k.writer.left > 0 && k.send.buffer == [] && k.send.closed
  }

  /** The wait group's Done. */
  function Done(h: Hub): Hub {
    if h.wg <= 0 then h.(fault := NegativeWaitGroup)
    else h.(wg := h.wg - 1, waiter := if h.wg == 1 && h.waiter.Parked? then Releasing else h.waiter)
  }

  function NextWriter(h: Hub, c: ClientId, input: WriteInput): Option<Hub>
    requires c < |h.conns|
  {
    var k := h.conns[c];
    if ReadsZeroValue(k) then Some(h.(fault := ZeroValueRead))
    else
      match WriterMove(k, h.shutdownClosed, input)
      case None => None
      case Some(k') =>
        var h' := SetConn(h, c, k');
        Some(if k.writer.Returning? then Done(h') else h')
  }

  function SetTask(h: Hub, t: TaskId, pc: TaskPc): Hub
    requires t < |h.tasks|
  {
    h.(tasks := h.tasks[t := h.tasks[t].(pc := pc)])
  }

  /** StartConsumer's goroutine and Broadcast. The loop of Broadcast visits the map in any
      order while it holds the read lock. */
  function NextTask(h: Hub, t: TaskId, input: TaskInput): Option<Hub>
    requires t < |h.tasks|
  {
    match h.tasks[t].pc
    case Idle =>
      (match input
       case Begin(message) => Some(SetTask(h, t, WantingLock(message)))
       case Visit(_) => None
       case Proceed => Some(SetTask(h, t, Exiting)))
    case WantingLock(message) =>
      if h.lockWriter == Nobody then
        Some(SetTask(h, t, Visiting(message, h.clients)).(lockReaders := h.lockReaders + {t}))
      else None
    case Visiting(message, left) =>
      (match input
       case Visit(c) =>
         if c in left && c < |h.conns| then
           var (ch, result) := TrySend(h.conns[c].send, message);
           if result == PanicClosed then Some(h.(fault := SendOnClosedChannel))
           else Some(SetConn(SetTask(h, t, Visiting(message, left - {c})), c, h.conns[c].(send := ch)))
         else None
       case Proceed =>
         if left == {} then Some(SetTask(h, t, Idle).(lockReaders := h.lockReaders - {t})) else None
       case Begin(_) => None)
    case Exiting =>
      var h' := SetTask(h, t, Ended);
      Some(if h.tasks[t].tracked then Done(h') else h')
    case Ended => None
  }

  /** Shutdown, after it has closed h.ShutdownCh. With the lock it also lets go of the
      goroutine that waits, which goes on even when Shutdown's own time is over. */
  function NextShutdown(h: Hub, input: ShutdownInput): Option<Hub> {
    match h.shutdown
    case NotCalled => None
    case WantingWriteLock =>
      if LockFree(h) then Some(h.(shutdown := ClosingSockets(h.clients), lockWriter := Stopper)) else None
    case ClosingSockets(left) =>
      if left == {} then Some(h.(shutdown := Waiting, lockWriter := Nobody, waiter := Calling))
      else (match input
            case CloseSocket(c) =>
              if c in left && c < |h.conns| then
                Some(SetConn(h, c, h.conns[c].(socketClosed := true)).(shutdown := ClosingSockets(left - {c})))
              else None
            case _ => None)
    case Waiting =>
      if input == Timeout then Some(h.(shutdown := Finished(false)))
      else if h.waiter.Returned? then Some(h.(shutdown := Finished(true)))
      else None
    case Finished(_) => None
  }

  function NextWaiter(h: Hub): Option<Hub> {
    match h.waiter
    case NotWaiting => None
    case Calling => Some(h.(waiter := if h.wg == 0 then Returned else Parked))
    case Parked => None
    case Releasing => Some(h.(waiter := Rechecking))
    case Rechecking => Some(if h.wg == 0 then h.(waiter := Returned) else h.(fault := WaitGroupReused))
    case Returned => None
  }

  /** One step of the whole system, None where it is not enabled. */
  function Next(h: Hub, step: Step): Option<Hub> {
    if h.fault != NoFault then None
    else
      match step
      case Accept => Some(h.(conns := h.conns + [ACCEPTED]))
      case ReaderStep(c, input) => if c < |h.conns| then NextReader(h, c, input) else None
      case WriterStep(c, input) => if c < |h.conns| then NextWriter(h, c, input) else None
      case StartTask(tracked) =>
        if tracked && AddPanics(h) then Some(h.(fault := AddBesideWait))
        else Some(h.(tasks := h.tasks + [Task(tracked, Idle)], wg := if tracked then h.wg + 1 else h.wg))
      case TaskStep(t, input) => if t < |h.tasks| then NextTask(h, t, input) else None
      case CallShutdown =>
        if h.shutdownClosed then Some(h.(shutdownCalls := h.shutdownCalls + 1, fault := CloseOfClosedChannel))
        else Some(h.(shutdownClosed := true, shutdown := WantingWriteLock, shutdownCalls := h.shutdownCalls + 1))
      case ShutdownStep(input) => NextShutdown(h, input)
      case WaiterStep => NextWaiter(h)
  }

  /** `hs` is the sequence of states that the steps pass through. */
  ghost predicate Path(hs: seq<Hub>, steps: seq<Step>) {
    && |hs| == |steps| + 1
    && forall i {:trigger Next(hs[i], steps[i])} :: 0 <= i < |steps| ==> Next(hs[i], steps[i]) == Some(hs[i + 1])
  }

  /** A run of the server from its start. */
  ghost predicate Run(hs: seq<Hub>, steps: seq<Step>) {
    Path(hs, steps) && hs[0] == EMPTY
  }
}
