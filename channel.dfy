/**
  The unbounded channels through which the state keeper reaches each
  connection's writer. A channel keeps, in order, every message sent into it;
  sending never blocks and never fails.
*/
module Channel {
  import opened Messages

  class Channels {
    /** The messages sent so far into each channel that has been used. */
    var queues: map<ChannelId, seq<ClientMessage>>

    /** Everything sent into channel `c`, oldest first. */
    function Outbox(c: ChannelId): seq<ClientMessage>
      reads this
    {
      if c in queues then queues[c] else []
    }

    constructor ()
      ensures forall c :: Outbox(c) == []
    {
      queues := map[];
    }

    /** `UnboundedSender::send`: appends `m` to channel `c` and to no other. */
    method Send(c: ChannelId, m: ClientMessage)
      modifies this
      ensures forall d :: Outbox(d) == if d == c then old(Outbox(d)) + [m] else old(Outbox(d))
    {
      queues := queues[c := Outbox(c) + [m]];
    }
  }
}
