/**
 * The url-service's click publisher: a click event is serialised to JSON
 * and appended, persistent, to the click-events queue. Publishing never
 * fails towards its caller: a missing or closed channel only loses the
 * event.
 */
module ClickPublisher {
  import opened Wrappers
  import opened Json
  import Broker

  /** `env.RABBITMQ_QUEUE_CLICK_EVENTS`, whose default is "click_events" in both services. */
  const CLICK_EVENTS_QUEUE: string := "click_events"

  /** `ClickEvent`: exactly these five string fields. */
  datatype ClickEvent = ClickEvent(shortcode: string, longUrl: string, timestamp: string, ip: string, userAgent: string)

  /** `JSON.stringify(event)`, as the value it encodes. */
  function Serialize(e: ClickEvent): (j: Json)
    ensures j.JObj? && j.fields.Keys == {"shortcode", "longUrl", "timestamp", "ip", "userAgent"}
  {
    JObj(map["shortcode" := JStr(e.shortcode), "longUrl" := JStr(e.longUrl), "timestamp" := JStr(e.timestamp),
             "ip" := JStr(e.ip), "userAgent" := JStr(e.userAgent)])
  }

  /** Reading the five fields back from the parsed JSON gives the event again. */
  lemma SerializeRoundTrip(e: ClickEvent)
    ensures Parse(Encoded(Serialize(e))) == Ok(Serialize(e))
    ensures Property(Serialize(e), "shortcode") == Ok(Some(JStr(e.shortcode)))
    ensures Property(Serialize(e), "longUrl") == Ok(Some(JStr(e.longUrl)))
    ensures Property(Serialize(e), "timestamp") == Ok(Some(JStr(e.timestamp)))
    ensures Property(Serialize(e), "ip") == Ok(Some(JStr(e.ip)))
    ensures Property(Serialize(e), "userAgent") == Ok(Some(JStr(e.userAgent)))
    ensures forall e' :: Serialize(e') == Serialize(e) ==> e' == e
  {
    forall e' | Serialize(e') == Serialize(e) ensures e' == e {
      assert Serialize(e').fields["shortcode"] == Serialize(e).fields["shortcode"];
      assert Serialize(e').fields["longUrl"] == Serialize(e).fields["longUrl"];
      assert Serialize(e').fields["timestamp"] == Serialize(e).fields["timestamp"];
      assert Serialize(e').fields["ip"] == Serialize(e).fields["ip"];
      assert Serialize(e').fields["userAgent"] == Serialize(e).fields["userAgent"];
    }
  }

  /** The message `publishClickEvent` appends for an event. */
  function MessageOf(e: ClickEvent): Broker.Message {
    Broker.Message(Encoded(Serialize(e)), true)
  }

  /**
   * `publishClickEvent(event)`: on an open channel exactly one persistent
   * message carrying the event is appended to the click-events queue;
   * without a channel, or on a closed one, no queue changes. It returns
   * nothing and never throws.
   */
  method PublishClickEvent(holder: Broker.ChannelHolder, e: ClickEvent)
    modifies Broker.ChannelFrame(holder)`queues
    ensures holder.channel != null ==> (holder.channel.queues ==
      if holder.channel.open then Broker.Enqueue(old(holder.channel.queues), CLICK_EVENTS_QUEUE, MessageOf(e))
      else old(holder.channel.queues))
  {
    var channel := holder.GetChannel();
    if channel.Err? {
      return;
    }
    var message := Encoded(Serialize(e));
    var _ := channel.value.SendToQueue(CLICK_EVENTS_QUEUE, message, true);
  }

  /** On an open channel the click-events queue grows by one message, whose body parses back to the event's fields; other queues stay. */
  lemma PublishAppendsOne(queues: map<string, seq<Broker.Message>>, e: ClickEvent)
    ensures var after := Broker.Enqueue(queues, CLICK_EVENTS_QUEUE, MessageOf(e));
      var before := if CLICK_EVENTS_QUEUE in queues then queues[CLICK_EVENTS_QUEUE] else [];
      && |after[CLICK_EVENTS_QUEUE]| == |before| + 1
      && after[CLICK_EVENTS_QUEUE][..|before|] == before
      && after[CLICK_EVENTS_QUEUE][|before|].persistent
      && Parse(after[CLICK_EVENTS_QUEUE][|before|].content) == Ok(Serialize(e))
      && (forall q :: q in queues && q != CLICK_EVENTS_QUEUE ==> q in after && after[q] == queues[q])
  {
    var before := if CLICK_EVENTS_QUEUE in queues then queues[CLICK_EVENTS_QUEUE] else [];
    var after := Broker.Enqueue(queues, CLICK_EVENTS_QUEUE, MessageOf(e));
    assert after[CLICK_EVENTS_QUEUE] == before + [MessageOf(e)];
  }
}
