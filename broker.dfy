/**
 * The part of a RabbitMQ channel the click pipeline uses: durable queues
 * that messages are appended to, the settlements (`ack` / `nack`) a
 * consumer issues, and the consumers registered on it. `ChannelHolder` is
 * the module-level `channel` variable of each service's rabbitmq.ts, with
 * `getChannel` refusing to answer before it has been assigned.
 */
module Broker {
  import opened Wrappers
  import Json

  /** A queued message: its body and whether it was published with `persistent: true`. */
  datatype Message = Message(content: Json.Body, persistent: bool)

  /** A message as a consumer receives it, identified by its delivery tag. */
  datatype Delivery = Delivery(tag: nat, content: Json.Body)

  /** `ack(msg)`, or `nack(msg, false, requeue)`. */
  datatype Settlement = Acked(tag: nat) | Nacked(tag: nat, requeue: bool)

  /** `consume(queue, callback, { noAck })`. */
  datatype Registration = Registration(queue: string, noAck: bool)

  const CHANNEL_NOT_INITIALISED: string := "RabbitMQ channel not initialised — call connectRabbitMQ() first"
  const CHANNEL_CLOSED: string := "Channel closed"

  /** A queue's messages after one more is appended at its tail; a queue not seen before starts empty. */
  function Enqueue(queues: map<string, seq<Message>>, queue: string, msg: Message): (r: map<string, seq<Message>>)
    ensures queue in r && r[queue] == (if queue in queues then queues[queue] else []) + [msg]
    ensures forall q :: q in queues && q != queue ==> q in r && r[q] == queues[q]
    ensures r.Keys == queues.Keys + {queue}
  {
    queues[queue := (if queue in queues then queues[queue] else []) + [msg]]
  }

  class Channel {
    var queues: map<string, seq<Message>>
    var open: bool
    var settlements: seq<Settlement>
    var consumers: seq<Registration>

    constructor ()
      ensures queues == map[] && open && settlements == [] && consumers == []
    {
      queues := map[];
      open := true;
      settlements := [];
      consumers := [];
    }

    /** `sendToQueue`: appends the message on an open channel; a closed channel throws and appends nothing. */
    method SendToQueue(queue: string, content: Json.Body, persistent: bool) returns (r: Result<bool, string>)
      modifies this`queues
      ensures open ==> r == Ok(true) && queues == Enqueue(old(queues), queue, Message(content, persistent))
      ensures !open ==> r == Err(CHANNEL_CLOSED) && queues == old(queues)
    {
      if !open {
        return Err(CHANNEL_CLOSED);
      }
      queues := Enqueue(queues, queue, Message(content, persistent));
      r := Ok(true);
    }

    /** `ack(msg)`: settles the message on an open channel; a closed channel throws and records nothing. */
    method Ack(msg: Delivery) returns (r: Result<bool, string>)
      modifies this`settlements
      ensures open ==> r == Ok(true) && settlements == old(settlements) + [Acked(msg.tag)]
      ensures !open ==> r == Err(CHANNEL_CLOSED) && settlements == old(settlements)
    {
      if !open {
        return Err(CHANNEL_CLOSED);
      }
      settlements := settlements + [Acked(msg.tag)];
      r := Ok(true);
    }

    /**
     * `nack(msg, false, requeue)`: only this message, put back on the queue
     * or dropped; a closed channel throws and records nothing.
     */
    method Nack(msg: Delivery, requeue: bool) returns (r: Result<bool, string>)
      modifies this`settlements
      ensures open ==> r == Ok(true) && settlements == old(settlements) + [Nacked(msg.tag, requeue)]
      ensures !open ==> r == Err(CHANNEL_CLOSED) && settlements == old(settlements)
    {
      if !open {
        return Err(CHANNEL_CLOSED);
      }
      settlements := settlements + [Nacked(msg.tag, requeue)];
      r := Ok(true);
    }

    method Consume(queue: string, noAck: bool)
      modifies this`consumers
      ensures consumers == old(consumers) + [Registration(queue, noAck)]
    {
      consumers := consumers + [Registration(queue, noAck)];
    }
  }

  /** A service's `channel` variable: unset until `connectRabbitMQ` has run, and unset again once the connection closes. */
  class ChannelHolder {
    var channel: Channel?

    constructor ()
      ensures channel == null
    {
      channel := null;
    }

    /** `getChannel()`: the channel, or the error it throws before one is assigned. */
    method GetChannel() returns (r: Result<Channel, string>)
      ensures r.Ok? <==> channel != null
      ensures r.Ok? ==> r.value == channel
      ensures r.Err? ==> r.error == CHANNEL_NOT_INITIALISED
    {
      if channel == null {
        return Err(CHANNEL_NOT_INITIALISED);
      }
      r := Ok(channel);
    }
  }

  /** The channel's objects as a frame: empty while no channel is assigned. */
  function ChannelFrame(holder: ChannelHolder): set<Channel>
    reads holder
  {
    if holder.channel != null then {holder.channel} else {}
  }
}
