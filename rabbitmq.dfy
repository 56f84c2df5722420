/**
 * The broker as the consumer sees it: a queue of deliveries, publishing as an
 * append, and the settlement the `ReceivedAsync` callback chooses for the
 * delivery at the head (acknowledge, reject and requeue, reject and drop).
 */
module MessageQueue {
  import opened Common
  import opened Text
  import opened Messages

  /** The body of a delivery, as `JsonSerializer.Deserialize` sees it. */
  datatype Payload =
    | Json(message: EmailQueueMessage)   // deserialises to a message
    | JsonNull                           // the JSON literal null: deserialises to null
    | Malformed                          // not a message: deserialisation throws

  /** A header value: a byte array (held as its UTF-8 text) or any other AMQP value. */
  datatype HeaderValue = Bytes(text: string) | OtherValue

  datatype Properties = Properties(persistent: bool, headers: Option<map<string, HeaderValue>>)

  datatype Delivery = Delivery(payload: Payload, properties: Properties)

  datatype Settlement = Ack | NackRequeue | NackDrop

  const RetryCountHeader: string := "x-retry-count"

  /** `GetRetryCount`: the `x-retry-count` header parsed as an int, or 0 whenever that is not possible. */
  function GetRetryCount(p: Properties): int
  {
    if p.headers.Some? && RetryCountHeader in p.headers.value && p.headers.value[RetryCountHeader].Bytes?
    then
      match ParseInt32(p.headers.value[RetryCountHeader].text)
      case Some(n) => n
      case None => 0
    else 0
  }

  /**
   * The settlement of one delivery. A message is handed to the handler only
   * when it deserialises to a message; `handlerThrows` says whether the
   * handler then throws.
   */
  function Decide(d: Delivery, handlerThrows: bool, settings: RabbitMqSettings): Settlement
  {
    match d.payload
    case JsonNull => NackDrop
    case Json(_) =>
      if !handlerThrows then Ack
      else if GetRetryCount(d.properties) < settings.maxRetryAttempts then NackRequeue
      else NackDrop
    case Malformed =>
      if GetRetryCount(d.properties) < settings.maxRetryAttempts then NackRequeue else NackDrop
  }

  /** The properties `PublishEmailAsync` attaches: persistence from the settings, and no headers. */
  function PublishedProperties(settings: RabbitMqSettings): Properties
  {
    Properties(settings.durable, None)
  }

  /** The queue after settling its head: a requeued delivery stays in front, the others leave. */
  function AfterSettlement(queue: seq<Delivery>, s: Settlement): seq<Delivery>
    requires |queue| > 0
  {
    if s == NackRequeue then queue else queue[1..]
  }

  /** A header written as the decimal text of an Int32 reads back as that number. */
  lemma RetryCountRoundTrip(n: int, persistent: bool, others: map<string, HeaderValue>)
    requires Int32Min <= n <= Int32Max
    ensures GetRetryCount(Properties(persistent, Some(others[RetryCountHeader := Bytes(IntToString(n))]))) == n
  {
    ParseFormatRoundTrip(n);
  }

  /** Without a usable header the retry count is 0. */
  lemma RetryCountDefaults(p: Properties)
    ensures p.headers.None? ==> GetRetryCount(p) == 0
    ensures p.headers.Some? && RetryCountHeader !in p.headers.value ==> GetRetryCount(p) == 0
    ensures p.headers.Some? && RetryCountHeader in p.headers.value && p.headers.value[RetryCountHeader].OtherValue? ==> GetRetryCount(p) == 0
    ensures (p.headers.Some? && RetryCountHeader in p.headers.value && p.headers.value[RetryCountHeader].Bytes? &&
             ParseInt32(p.headers.value[RetryCountHeader].text).None?) ==> GetRetryCount(p) == 0
  {
  }

  /**
   * A delivery is acknowledged exactly when it deserialises to a message and
   * the handler completes; a null body is dropped without calling the handler.
   */
  lemma DecideAck(d: Delivery, handlerThrows: bool, settings: RabbitMqSettings)
    ensures Decide(d, handlerThrows, settings) == Ack <==> d.payload.Json? && !handlerThrows
    ensures d.payload.JsonNull? ==> Decide(d, handlerThrows, settings) == NackDrop
    ensures Decide(d, handlerThrows, settings) == NackRequeue <==>
      (d.payload.Malformed? || (d.payload.Json? && handlerThrows)) &&
      GetRetryCount(d.properties) < settings.maxRetryAttempts
  {
  }

  /**
   * Publishing never sets the retry header, so a delivery published by this
   * service that makes the handler throw, or that does not deserialise, is
   * requeued every time while `MaxRetryAttempts >= 1`: it comes back to the
   * head of the queue unchanged.
   */
  lemma PublishedFailuresRequeueForever(payload: Payload, handlerThrows: bool, settings: RabbitMqSettings, rest: seq<Delivery>)
    requires settings.maxRetryAttempts >= 1
    requires payload.Malformed? || (payload.Json? && handlerThrows)
    ensures var d := Delivery(payload, PublishedProperties(settings));
      GetRetryCount(d.properties) == 0 &&
      Decide(d, handlerThrows, settings) == NackRequeue &&
      AfterSettlement([d] + rest, NackRequeue) == [d] + rest
  {
  }

  /** `RabbitMqService`: the settings and the deliveries waiting in the e-mail queue. */
  class RabbitMqService {
    const settings: RabbitMqSettings
    var queue: seq<Delivery>

    constructor (settings: RabbitMqSettings, queue: seq<Delivery>)
      ensures this.settings == settings && this.queue == queue
    {
      this.settings := settings;
      this.queue := queue;
    }

    /**
     * `PublishEmailAsync`: appends one delivery carrying the message, or, when
     * `fails` (the broker call throws), leaves the queue as it was and reports
     * the failure to the caller.
     */
    method PublishEmail(message: EmailQueueMessage, fails: bool) returns (ok: bool)
      modifies this
      ensures ok == !fails
      ensures queue == if ok then old(queue) + [Delivery(Json(message), PublishedProperties(settings))] else old(queue)
    {
      ok := !fails;
      if ok {
        queue := queue + [Delivery(Json(message), PublishedProperties(settings))];
      }
    }

    /**
     * The `ReceivedAsync` callback for the delivery at the head: hands the
     * message to the handler when it deserialises (`handlerThrows` being the
     * handler's outcome), then settles the delivery.
     */
    method Receive(handlerThrows: bool) returns (handled: Option<EmailQueueMessage>, s: Settlement)
      requires |queue| > 0
      modifies this
      ensures handled == if old(queue)[0].payload.Json? then Some(old(queue)[0].payload.message) else None
      ensures s == Decide(old(queue)[0], handlerThrows, settings)
      ensures queue == AfterSettlement(old(queue), s)
    {
      var d := queue[0];
      handled := if d.payload.Json? then Some(d.payload.message) else None;
      s := Decide(d, handlerThrows, settings);
      if s != NackRequeue {
        queue := queue[1..];
      }
    }
  }
}
