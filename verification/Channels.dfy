/** A client's outgoing Go channel, `make(chan []byte, 256)`, with the semantics of the
    language: a send that finds the channel closed panics, a receive drains the buffer
    before it sees the close. `accepted` and `taken` record every message ever put into
    and taken out of the channel. */
module Channels {
  type Message = string

  const CAPACITY: nat := 256

  datatype Channel = Channel(buffer: seq<Message>, closed: bool, accepted: seq<Message>, taken: seq<Message>)

  datatype SendResult = Sent | BufferFull | PanicClosed

  const FRESH := Channel([], false, [], [])

  /** Nothing is lost, duplicated or reordered, and the buffer keeps to its capacity. */
  predicate InOrder(ch: Channel) {
    ch.accepted == ch.taken + ch.buffer && |ch.buffer| <= CAPACITY
  }

  /** `select { case ch <- m: default: }` */
  function TrySend(ch: Channel, m: Message): (r: (Channel, SendResult)) {
    if ch.closed then (ch, PanicClosed)
    else if |ch.buffer| < CAPACITY then
      (ch.(buffer := ch.buffer + [m], accepted := ch.accepted + [m]), Sent)
    else (ch, BufferFull)
  }

  /** `<-ch` on a channel that holds a message. */
  function Receive(ch: Channel): Channel
    requires ch.buffer != []
  {
    ch.(buffer := ch.buffer[1..], taken := ch.taken + [ch.buffer[0]])
  }

  /** What a non-blocking send does: it panics exactly on a closed channel, appends exactly
      when there is room, and keeps the order in every case. */
  lemma TrySendKeepsOrder(ch: Channel, m: Message)
    requires InOrder(ch)
    ensures var (ch', result) := TrySend(ch, m);
            && InOrder(ch') && ch'.taken == ch.taken && ch'.closed == ch.closed
            && (result == PanicClosed <==> ch.closed)
            && (result == Sent ==> ch'.accepted == ch.accepted + [m])
            && (result != Sent ==> ch' == ch)
            && (result == BufferFull ==> |ch.buffer| == CAPACITY)
  {
  }

  lemma ReceiveKeepsOrder(ch: Channel)
    requires InOrder(ch) && ch.buffer != []
    ensures var ch' := Receive(ch);
            InOrder(ch') && ch'.accepted == ch.accepted && ch'.closed == ch.closed && |ch'.buffer| == |ch.buffer| - 1
    ensures |ch.taken| < |ch.accepted| && Receive(ch).taken == ch.taken + [ch.accepted[|ch.taken|]]
  {
  }
}
