/** The handler's own loops, run without interference: Broadcast over the client map, the
    frame that writePump assembles, and Shutdown's closing of the connections; and the tie
    between Broadcast and the steps it takes in the transition system. */
module HubHandlers {
  import opened Channels
  import opened Hub

  class Client {
    var send: Channel
    var socketClosed: bool

    constructor ()
      ensures send == FRESH && !socketClosed
    {
      send := FRESH;
      socketClosed := false;
    }
  }

  class WebSocketHandler {
    var clients: set<Client>
    var shutdownClosed: bool

    constructor ()
      ensures clients == {} && !shutdownClosed
    {
      clients := {};
      shutdownClosed := false;
    }

    method RegisterClient(client: Client)
      modifies this`clients
      ensures clients == old(clients) + {client}
    {
      clients := clients + {client};
    }

    /** Closing a channel that is closed already would panic. */
    method UnregisterClient(client: Client)
      requires !client.send.closed
      modifies this`clients, client
      ensures clients == old(clients) - {client}
      ensures client.send == old(client.send).(closed := true) && client.socketClosed
    {
      clients := clients - {client};
      client.send := client.send.(closed := true);
      client.socketClosed := true;
    }

    /** Every client in the map is offered the message once, whatever the order of the
        iteration; no other client is touched. */
    method Broadcast(message: Message)
      requires forall c :: c in clients ==> !c.send.closed
      modifies clients`send
      ensures forall c :: c in clients ==> c.send == TrySend(old(c.send), message).0
    {
      var left := clients;
      while left != {}
        invariant left <= clients
        invariant forall c :: c in clients ==>
          c.send == if c in left then old(c.send) else TrySend(old(c.send), message).0
        decreases |left|
      {
        var client :| client in left;
        var (ch, result) := TrySend(client.send, message);
        client.send := ch;
        left := left - {client};
      }
    }

    /** One frame of writePump: the message just received and everything that was buffered
        behind it, in order. */
    method WriteFrame(client: Client) returns (frame: seq<Message>)
      requires client.send.buffer != [] && InOrder(client.send)
      modifies client`send
      ensures frame == old(client.send.buffer) && client.send.buffer == []
      ensures client.send.taken == client.send.accepted == old(client.send.accepted)
      ensures client.send.closed == old(client.send.closed)
    {
      frame := [client.send.buffer[0]];
      ReceiveKeepsOrder(client.send);
      client.send := Receive(client.send);
      var n := |client.send.buffer|;
      for i := 0 to n
        invariant |client.send.buffer| == n - i && InOrder(client.send)
        invariant frame + client.send.buffer == old(client.send.buffer)
        invariant client.send.accepted == old(client.send.accepted)
        invariant client.send.closed == old(client.send.closed)
      {
        frame := frame + [client.send.buffer[0]];
        ReceiveKeepsOrder(client.send);
        client.send := Receive(client.send);
      }
    }

    /** Shutdown up to its wait. */
    method CloseConnections()
      requires !shutdownClosed
      modifies this`shutdownClosed, clients`socketClosed
      ensures shutdownClosed
      ensures forall c :: c in clients ==> c.socketClosed
    {
      shutdownClosed := true;
      var left := clients;
      while left != {}
        invariant left <= clients
        invariant shutdownClosed
        invariant forall c :: c in clients - left ==> c.socketClosed
        decreases |left|
      {
        var client :| client in left;
        client.socketClosed := true;
        left := left - {client};
      }
    }
  }

  /** Only task t moves, and only by visits. */
  ghost predicate Sweep(hs: seq<Hub>, steps: seq<Step>, t: TaskId) {
    && Path(hs, steps)
    && forall i :: 0 <= i < |steps| ==> steps[i].TaskStep? && steps[i].task == t && steps[i].move.Visit?
  }

  /** What the visits made so far have done to one channel. */
  function Offered(before: Conn, visited: bool, message: Message): Conn {
    if visited then before.(send := TrySend(before.send, message).0) else before
  }

  /** The visits of Broadcast, in whatever order the map yields the clients, have the effect
      of the loop of WebSocketHandler.Broadcast: each client visited is offered the message
      exactly once and nothing else changes. */
  lemma {:induction false} SweepOffersOnce(hs: seq<Hub>, steps: seq<Step>, t: TaskId, i: nat)
    requires Sweep(hs, steps, t) && i < |hs|
    requires t < |hs[0].tasks| && hs[0].tasks[t].pc.Visiting?
    requires hs[0].fault == NoFault && hs[i].fault == NoFault
    ensures t < |hs[i].tasks| && hs[i].tasks[t].pc.Visiting? && |hs[i].conns| == |hs[0].conns|
    ensures var message, all, left := hs[0].tasks[t].pc.message, hs[0].tasks[t].pc.left, hs[i].tasks[t].pc.left;
            && left <= all
            && hs[i].tasks[t].pc.message == message
            && forall c :: 0 <= c < |hs[0].conns| ==>
                 hs[i].conns[c] == Offered(hs[0].conns[c], c in all - left, message)
  {
    if i > 0 {
      assert Next(hs[i - 1], steps[i - 1]) == Some(hs[i]);
      assert hs[i - 1].fault == NoFault;
      SweepOffersOnce(hs, steps, t, i - 1);
    }
  }
}
