/**
 * The analytics-worker's consumer. Each delivered message is parsed,
 * checked for `shortcode`, `longUrl` and `timestamp`, and handed to the
 * event store; the message is then acked (stored), nacked without requeue
 * (it can never succeed) or nacked with requeue (the store failed).
 *
 * As written, a message whose body is the JSON text `null` gets none of
 * the three: reading `raw.shortcode` throws a TypeError outside every
 * try block. `ReadStep` models that; `ReadStepCorrected` treats such a
 * body like one that lacks its required fields, and the consumer's
 * methods use it.
 */
module ClickConsumer {
  import opened Wrappers
  import opened Json
  import Broker
  import ClickEventModel
  import ClickPublisher

  /** The largest instant a JavaScript Date can hold, in milliseconds either side of the epoch. */
  const MAX_DATE_MS: int := 8640000000000000

  /** How far a message gets: unparseable, missing a checked field, thrown out of, or up to the store write. */
  datatype Step = Malformed | Incomplete | Crashed(error: TypeError) | Write(doc: ClickEventModel.Doc)

  /** The terminal action for a message: ack, nack with or without requeue, or nothing at all. */
  datatype Action = Ack | Nack(requeue: bool) | NoSettlement

  /**
   * `new Date(value)` for the truthy values that reach it: a string is
   * parsed by `parseIso`, a number is an instant if in range, `true` is
   * instant 1; arrays and objects count as Invalid Date.
   */
  function NewDate(v: Option<Json>, parseIso: string -> Option<int>): ClickEventModel.DateValue {
    match v
    case Some(JStr(s)) => if parseIso(s).Some? then ClickEventModel.ValidDate(parseIso(s).value) else ClickEventModel.InvalidDate
    case Some(JNum(n)) => if -MAX_DATE_MS <= n <= MAX_DATE_MS then ClickEventModel.ValidDate(n) else ClickEventModel.InvalidDate
    case Some(JBool(b)) => ClickEventModel.ValidDate(if b then 1 else 0)
    case _ => ClickEventModel.InvalidDate
  }

  /** `raw[key]` for a value already known to be readable. */
  function Field(raw: Json, key: string): Option<Json> {
    match Property(raw, key)
    case Ok(v) => v
    case Err(_) => None
  }

  /** `processMessage` up to the store write, as written. */
  function ReadStep(body: Body, parseIso: string -> Option<int>): Step {
    match Parse(body)
    case Err(_) => Malformed
    case Ok(raw) =>
      match Property(raw, "shortcode")
      case Err(e) => Crashed(e)
      case Ok(shortcode) =>
        var longUrl := Field(raw, "longUrl");
        var timestamp := Field(raw, "timestamp");
        if !Truthy(shortcode) || !Truthy(longUrl) || !Truthy(timestamp) then Incomplete
        else Write(ClickEventModel.Doc(shortcode, longUrl, NewDate(timestamp, parseIso), Field(raw, "ip"), Field(raw, "userAgent")))
  }

  /** `processMessage` up to the store write, with a `null` payload discarded like one that lacks its fields. */
  function ReadStepCorrected(body: Body, parseIso: string -> Option<int>): Step {
    if Parse(body) == Ok(JNull) then Incomplete else ReadStep(body, parseIso)
  }

  /** What is done with the message, given how far it got and whether the store write succeeded. */
  function ActionOf(step: Step, stored: bool): Action {
    match step
    case Malformed => Nack(false)
    case Incomplete => Nack(false)
    case Crashed(_) => NoSettlement
    case Write(_) => if stored then Ack else Nack(true)
  }

  function SettlementOf(tag: nat, action: Action): seq<Broker.Settlement> {
    match action
    case Ack => [Broker.Acked(tag)]
    case Nack(requeue) => [Broker.Nacked(tag, requeue)]
    case NoSettlement => []
  }

  /** Whether the store write succeeds for a step, on a store that is or is not reachable. */
  predicate Stores(step: Step, reachable: bool) {
    step.Write? && reachable && ClickEventModel.Accepts(step.doc)
  }

  // ─── The consumer as written ─────────────────────────────

  /** Only a `null` payload makes the as-written consumer throw, and then the message is neither acked nor nacked. */
  lemma {:induction false} NullPayloadNeverSettled(body: Body, parseIso: string -> Option<int>, stored: bool)
    ensures ReadStep(body, parseIso).Crashed? <==> Parse(body) == Ok(JNull)
    ensures ActionOf(ReadStep(Encoded(JNull), parseIso), stored) == NoSettlement
    ensures ActionOf(ReadStepCorrected(Encoded(JNull), parseIso), stored) == Nack(false)
    ensures Parse(body) != Ok(JNull) ==> ReadStepCorrected(body, parseIso) == ReadStep(body, parseIso)
  {
    match Parse(body)
    case Err(_) =>
    case Ok(raw) =>
      ParseNullIsOnlyJNull(raw);
  }

  lemma ParseNullIsOnlyJNull(raw: Json)
    ensures Property(raw, "shortcode").Err? <==> raw == JNull
  {
  }

  // ─── The corrected consumer ──────────────────────────────

  /** Every message gets exactly one terminal action, and it is ack only when the store write succeeded. */
  lemma ExactlyOneAction(body: Body, parseIso: string -> Option<int>, reachable: bool)
    ensures var step := ReadStepCorrected(body, parseIso);
      && ActionOf(step, Stores(step, reachable)) != NoSettlement
      && |SettlementOf(0, ActionOf(step, Stores(step, reachable)))| == 1
      && (ActionOf(step, Stores(step, reachable)) == Ack <==> Stores(step, reachable))
  {
    NullPayloadNeverSettled(body, parseIso, false);
  }

  /** Text that is not JSON is nacked without requeue and never written. */
  lemma UnparseableDiscarded(text: string, parseIso: string -> Option<int>, reachable: bool)
    ensures ReadStepCorrected(Garbled(text), parseIso) == Malformed
    ensures ActionOf(Malformed, Stores(Malformed, reachable)) == Nack(false)
  {
  }

  /**
   * The consumer's own check looks at `shortcode`, `longUrl` and
   * `timestamp` only: an object reaches the store exactly when those three
   * are truthy, whatever `ip` and `userAgent` hold; otherwise it is
   * nacked without requeue and never written.
   */
  lemma ThreeFieldGuard(fields: map<string, Json>, parseIso: string -> Option<int>, reachable: bool)
    ensures var raw := JObj(fields);
      ReadStepCorrected(Encoded(raw), parseIso).Write? <==>
        Truthy(Field(raw, "shortcode")) && Truthy(Field(raw, "longUrl")) && Truthy(Field(raw, "timestamp"))
    ensures var step := ReadStepCorrected(Encoded(JObj(fields)), parseIso);
      !step.Write? ==> step == Incomplete && ActionOf(step, Stores(step, reachable)) == Nack(false) && !Stores(step, reachable)
  {
  }

  /**
   * A message that lacks `ip` (or `userAgent`) passes the consumer's check
   * but not the schema: the store refuses it every time, and it is
   * requeued every time, however often it is redelivered.
   */
  lemma MissingIpRequeued(shortcode: string, longUrl: string, timestamp: string, userAgent: Option<Json>,
                          parseIso: string -> Option<int>, reachable: bool)
    requires shortcode != "" && longUrl != "" && timestamp != ""
    ensures var body := Encoded(JObj(map["shortcode" := JStr(shortcode), "longUrl" := JStr(longUrl),
                                          "timestamp" := JStr(timestamp)] + (if userAgent.Some? then map["userAgent" := userAgent.value] else map[])));
      var step := ReadStepCorrected(body, parseIso);
      && step.Write?
      && step.doc.ip.None?
      && !ClickEventModel.Accepts(step.doc)
      && !Stores(step, reachable)
      && ActionOf(step, Stores(step, reachable)) == Nack(true)
  {
  }

  /**
   * A published click whose fields are non-empty and whose timestamp
   * parses is stored with the same five values and acked, if the store
   * can be reached; if it cannot, it is requeued.
   */
  lemma {:induction false} PublishedEventStored(e: ClickPublisher.ClickEvent, parseIso: string -> Option<int>, reachable: bool, now: int)
    requires e.shortcode != "" && e.longUrl != "" && e.timestamp != "" && e.ip != "" && e.userAgent != ""
    requires parseIso(e.timestamp).Some?
    ensures var step := ReadStepCorrected(ClickPublisher.MessageOf(e).content, parseIso);
      && step.Write?
      && ClickEventModel.Accepts(step.doc)
      && ClickEventModel.ToStored(step.doc, now) ==
         ClickEventModel.StoredEvent(e.shortcode, e.longUrl, parseIso(e.timestamp).value, e.ip, e.userAgent, now)
      && ActionOf(step, Stores(step, reachable)) == (if reachable then Ack else Nack(true))
  {
    ClickPublisher.SerializeRoundTrip(e);
    var raw := ClickPublisher.Serialize(e);
    assert Field(raw, "ip") == Some(JStr(e.ip));
    assert Field(raw, "userAgent") == Some(JStr(e.userAgent));
    ClickEventModel.StringDocumentStored(e.shortcode, e.longUrl, parseIso(e.timestamp).value, e.ip, e.userAgent, now);
  }

  /** The worker's side: the channel it settles on and the event store it writes. */
  class Consumer {
    const holder: Broker.ChannelHolder
    const store: ClickEventModel.EventStore

    constructor (holder: Broker.ChannelHolder, store: ClickEventModel.EventStore)
      ensures this.holder == holder && this.store == store
    {
      this.holder := holder;
      this.store := store;
    }

    /**
     * `processMessage(msg)`: the store is written only for a message that
     * got past the check and was accepted, and the channel receives
     * exactly the message's one settlement. Without a channel, or on a
     * closed one, the store write still happens and the settlement is lost
     * with the thrown error.
     */
    method ProcessMessage(msg: Broker.Delivery, parseIso: string -> Option<int>)
      modifies Broker.ChannelFrame(holder)`settlements, store`docs
      ensures var step := ReadStepCorrected(msg.content, parseIso);
        && store.docs == (if Stores(step, store.reachable) then old(store.docs) + [ClickEventModel.ToStored(step.doc, store.now)] else old(store.docs))
        && (holder.channel != null ==>
              holder.channel.settlements == old(holder.channel.settlements) +
                (if holder.channel.open then SettlementOf(msg.tag, ActionOf(step, Stores(step, store.reachable))) else []))
    {
      var parsed := Parse(msg.content);
      if parsed.Err? {
        var channel := holder.GetChannel();
        if channel.Ok? {
          var _ := channel.value.Nack(msg, false);
        }
        return;
      }
      var raw := parsed.value;
      if raw == JNull {
        var channel := holder.GetChannel();
        if channel.Ok? {
          var _ := channel.value.Nack(msg, false);
        }
        return;
      }

      var shortcode := Field(raw, "shortcode");
      var longUrl := Field(raw, "longUrl");
      var timestamp := Field(raw, "timestamp");
      if !Truthy(shortcode) || !Truthy(longUrl) || !Truthy(timestamp) {
        var channel := holder.GetChannel();
        if channel.Ok? {
          var _ := channel.value.Nack(msg, false);
        }
        return;
      }

      var doc := ClickEventModel.Doc(shortcode, longUrl, NewDate(timestamp, parseIso), Field(raw, "ip"), Field(raw, "userAgent"));
      var created := store.Create(doc);
      var channel := holder.GetChannel();
      if channel.Err? {
        return;
      }
      if created.Ok? {
        var acked := channel.value.Ack(msg);
        if acked.Err? {
          // the throwing ack lands in the same catch block as a failed write
          var _ := channel.value.Nack(msg, true);
        }
      } else {
        var _ := channel.value.Nack(msg, true);
      }
    }

    /** The `consume` callback: a null delivery (the broker cancelled the consumer) is ignored. */
    method OnMessage(msg: Option<Broker.Delivery>, parseIso: string -> Option<int>)
      modifies Broker.ChannelFrame(holder)`settlements, store`docs
      ensures msg.None? ==> store.docs == old(store.docs) && (holder.channel != null ==> holder.channel.settlements == old(holder.channel.settlements))
      ensures msg.Some? ==> var step := ReadStepCorrected(msg.value.content, parseIso);
        && store.docs == (if Stores(step, store.reachable) then old(store.docs) + [ClickEventModel.ToStored(step.doc, store.now)] else old(store.docs))
        && (holder.channel != null ==>
              holder.channel.settlements == old(holder.channel.settlements) +
                (if holder.channel.open then SettlementOf(msg.value.tag, ActionOf(step, Stores(step, store.reachable))) else []))
    {
      if msg.None? {
        return;
      }
      ProcessMessage(msg.value, parseIso);
    }

    /** `startConsumer`: registers the callback on the click-events queue in manual-acknowledgement mode. */
    method StartConsumer() returns (r: Result<bool, string>)
      modifies Broker.ChannelFrame(holder)`consumers
      ensures holder.channel == null ==> r == Err(Broker.CHANNEL_NOT_INITIALISED)
      ensures holder.channel != null ==>
        r == Ok(true) && holder.channel.consumers == old(holder.channel.consumers) + [Broker.Registration(ClickPublisher.CLICK_EVENTS_QUEUE, false)]
    {
      var channel := holder.GetChannel();
      if channel.Err? {
        return Err(channel.error);
      }
      channel.value.Consume(ClickPublisher.CLICK_EVENTS_QUEUE, false);
      r := Ok(true);
    }
  }
}
