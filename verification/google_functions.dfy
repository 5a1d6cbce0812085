/** The decision logic of the Google Cloud transport
    (`GoogleFunctions` in
    src/processor-queue/implementations/google-functions/index.js):
    its settings and their defaults, where `publish` sends a message,
    how `subscribe` registers handlers, and what `_messageHandler` does
    with an inbound message. The cloud clients, the JSON decoding and
    the download of a stored payload are parameters. */
module GoogleFunctions {
  import opened JsValue

  /** `DEFAULT_MAX_PUB_SUB_SIZE`: 5 MiB. */
  const DefaultMaxPubSubSize: int := 1024 * 1024 * 5

  /** The subscription's ack deadline, in seconds, when
      `DEADLINE_SECONDS` gives none. */
  const DefaultSubscriptionDeadline: int := 200

  datatype Settings = Settings(
    maxPubSubSize: int,
    workerTopic: string,
    workerBucket: string,
    resultBucketName: string,
    subscriptionDeadline: int)

  /** `parseInt(process.env.DEADLINE_SECONDS, 10) || 200`; an unset
      variable parses as NaN. */
  function SubscriptionDeadline(env: Option<string>): int {
    if env.None? then DefaultSubscriptionDeadline else OrDefault(ParseInt(env.value), DefaultSubscriptionDeadline)
  }

  /** The deadline is the variable's number when it holds a non-zero one,
      and 200 seconds when it is unset, empty, not a number or zero. */
  lemma SubscriptionDeadlineDefaults(n: nat, v: string)
    ensures SubscriptionDeadline(None) == 200
    ensures (forall i :: 0 <= i < |v| ==> !IsDigit(v[i])) ==> SubscriptionDeadline(Some(v)) == 200
    ensures (forall i :: 0 <= i < |v| ==> v[i] == '0') ==> SubscriptionDeadline(Some(v)) == 200
    ensures SubscriptionDeadline(Some("")) == 200
    ensures SubscriptionDeadline(Some("soon")) == 200
    ensures SubscriptionDeadline(Some("0")) == 200
    ensures n != 0 ==> SubscriptionDeadline(Some(NatToString(n))) == n
  {
    assert ParseInt("") == None;
    assert ParseInt("soon") == None by {
      assert !IsSpace('s') && !IsDigit('s');
      assert TrimStart("soon") == "soon";
      assert DigitPrefix("soon") == [];
    }
    assert ParseInt("0") == Some(0) by {
      ParseIntOfNatToString(0);
      assert NatToString(0) == "0";
    }
    ParseIntOfNatToString(n);
    ParseIntWithoutDigits(v);
    if |v| > 0 && forall i :: 0 <= i < |v| ==> v[i] == '0' {
      DigitsValueOfZeros(v);
      ParseIntOfDigits(v);
    }
  }

  /** The constructor's settings. The worker topic and bucket names come
      from the processor's settings (computed in a helper that is not part
      of this model); the result bucket is named after `TOPIC`. */
  function NewSettings(maxPubSubSize: Option<int>, workerTopic: string, workerBucket: string,
                       topicEnv: Option<string>, deadlineEnv: Option<string>): (r: Settings)
    ensures maxPubSubSize.None? || maxPubSubSize == Some(0) ==> r.maxPubSubSize == 5 * 1024 * 1024
    ensures maxPubSubSize.Some? && maxPubSubSize.value != 0 ==> r.maxPubSubSize == maxPubSubSize.value
    ensures r.subscriptionDeadline == SubscriptionDeadline(deadlineEnv)
  {
    Settings(
      OrDefault(maxPubSubSize, DefaultMaxPubSubSize),
      workerTopic,
      workerBucket,
      "event-results-" + (if topicEnv.Some? then topicEnv.value else "undefined"),
      SubscriptionDeadline(deadlineEnv))
  }

  /** Where a published message goes: the worker topic, or an object in
      the worker bucket holding the message as base64 text. */
  datatype Destination =
    | ToTopic(topic: string, data: seq<byte>)
    | ToBucket(bucket: string, objectName: string, text: Base64Text)

  /** `publish(id, msg)`: messages strictly below the size threshold go to
      Pub/Sub, the others (including one of exactly the threshold's size)
      to storage as `event-<id>`. */
  function Publish(settings: Settings, id: Value, msg: seq<byte>): (r: Destination)
    ensures r.ToTopic? <==> |msg| < settings.maxPubSubSize
    ensures r.ToTopic? ==> r == ToTopic(settings.workerTopic, msg)
    ensures r.ToBucket? ==> r == ToBucket(settings.workerBucket, "event-" + ToString(id), Base64Of(msg))
  {
    if |msg| < settings.maxPubSubSize then ToTopic(settings.workerTopic, msg)
    else ToBucket(settings.workerBucket, "event-" + ToString(id), Base64Of(msg))
  }

  /** With the default threshold, a message of exactly 5 MiB is stored,
      one byte less is published, and the stored object is named after
      the job id. */
  lemma DefaultThresholdBoundary(topic: string, bucket: string, msg: seq<byte>, id: string)
    requires |msg| == 5 * 1024 * 1024
    ensures var settings := NewSettings(None, topic, bucket, None, None);
            && Publish(settings, Str(id), msg) == ToBucket(bucket, "event-" + id, Base64Of(msg))
            && Publish(settings, Str(id), msg[1..]).ToTopic?
  {
  }

  /** A registered handler; handlers are told apart by their position in
      the order they were registered. */
  type Handler = nat

  datatype Transport = Transport(settings: Settings, subscribers: seq<Handler>)

  /** `subscribe(handler)`: appends the handler to the subscribers. */
  function Subscribe(t: Transport, handler: Handler): (r: Transport)
    ensures r.settings == t.settings
    ensures |r.subscribers| == |t.subscribers| + 1
    ensures r.subscribers[..|t.subscribers|] == t.subscribers && r.subscribers[|t.subscribers|] == handler
  {
    t.(subscribers := t.subscribers + [handler])
  }

  /** If the decoded message names a stored payload, that payload is
      fetched, put in `payload`, and `storedPayload` is deleted; otherwise
      the message is left as decoded. Reading `storedPayload` of a message
      that decoded to `null` throws, and so does a failed fetch. */
  function Rehydrate(decoded: Value, fetch: Value -> Completion<Value>): (r: Completion<Value>)
    ensures r.Throw? <==> Nullish(decoded) ||
                          (Truthy(Field(decoded, "storedPayload")) && fetch(Field(decoded, "storedPayload")).Throw?)
    ensures r.Normal? && !Truthy(Field(decoded, "storedPayload")) ==> r.value == decoded
    ensures r.Normal? && Truthy(Field(decoded, "storedPayload")) ==>
              r.value.Obj? && "storedPayload" !in r.value.fields && "payload" in r.value.fields
              && r.value.fields["payload"] == fetch(Field(decoded, "storedPayload")).value
  {
    match Get(decoded, "storedPayload")
    case Throw(e) => Throw(e)
    case Normal(stored) =>
      if !Truthy(stored) then Normal(decoded)
      else
        match fetch(stored)
        case Throw(e) => Throw(e)
        case Normal(payload) =>
          // only an object has a truthy `storedPayload`
          Normal(Obj(decoded.fields["payload" := payload] - {"storedPayload"}))
  }

  /** A message naming a stored payload comes out with the fetched content
      as `payload`, without `storedPayload`, and with every other field
      as it was. */
  lemma RehydrateReplacesPayload(fields: map<string, Value>, fetch: Value -> Completion<Value>)
    requires "storedPayload" in fields && Truthy(fields["storedPayload"])
    requires fetch(fields["storedPayload"]).Normal?
    ensures var r := Rehydrate(Obj(fields), fetch);
            && r.Normal? && r.value.Obj?
            && r.value.fields.Keys == fields.Keys - {"storedPayload"} + {"payload"}
            && r.value.fields["payload"] == fetch(fields["storedPayload"]).value
            && forall k :: k in fields && k != "payload" && k != "storedPayload" ==> r.value.fields[k] == fields[k]
  {
  }

  /** A message without a (truthy) stored payload is delivered as
      decoded, and no fetch happens. */
  lemma RehydrateKeepsPlainMessage(decoded: Value, fetch: Value -> Completion<Value>)
    requires !Nullish(decoded) && !Truthy(Field(decoded, "storedPayload"))
    ensures Rehydrate(decoded, fetch) == Normal(decoded)
  {
  }

  /** What `_messageHandler` does, in order. */
  datatype Effect = Ack | Deliver(handler: Handler, message: Value)

  datatype HandlerRun = HandlerRun(effects: seq<Effect>, thrown: Option<Value>)

  /** `this.subscribers.forEach(handler => handler(m))`: each handler is
      called in registration order; a handler that throws ends the loop.
      `invoke(h, m)` is what handler `h` throws when given `m`, if
      anything. */
  function Broadcast(handlers: seq<Handler>, m: Value, invoke: (Handler, Value) -> Option<Value>): (r: HandlerRun)
    ensures |r.effects| <= |handlers|
    ensures forall i :: 0 <= i < |r.effects| ==> r.effects[i] == Deliver(handlers[i], m)
    ensures r.thrown.None? ==> |r.effects| == |handlers|
    ensures r.thrown.Some? ==> |r.effects| > 0 && r.thrown == invoke(handlers[|r.effects| - 1], m)
    ensures forall i :: 0 <= i < |r.effects| && (r.thrown.None? || i < |r.effects| - 1) ==> invoke(handlers[i], m).None?
    decreases |handlers|
  {
    if |handlers| == 0 then HandlerRun([], None)
    else
      match invoke(handlers[0], m)
      case Some(err) => HandlerRun([Deliver(handlers[0], m)], Some(err))
      case None =>
        var rest := Broadcast(handlers[1..], m, invoke);
        HandlerRun([Deliver(handlers[0], m)] + rest.effects, rest.thrown)
  }

  /** Handlers that return normally each get the message exactly once, in
      the order they subscribed. */
  lemma {:induction false} BroadcastReachesEveryHandler(handlers: seq<Handler>, m: Value,
                                                        invoke: (Handler, Value) -> Option<Value>)
    requires forall i :: 0 <= i < |handlers| ==> invoke(handlers[i], m).None?
    ensures Broadcast(handlers, m, invoke).thrown.None?
    ensures Broadcast(handlers, m, invoke).effects == seq(|handlers|, i requires 0 <= i < |handlers| => Deliver(handlers[i], m))
    decreases |handlers|
  {
    if |handlers| > 0 {
      BroadcastReachesEveryHandler(handlers[1..], m, invoke);
    }
  }

  /** A handler that throws has been called, but the ones registered
      after it are not. */
  lemma {:induction false} BroadcastStopsAtFirstThrow(handlers: seq<Handler>, m: Value,
                                                      invoke: (Handler, Value) -> Option<Value>, k: nat)
    requires k < |handlers| && invoke(handlers[k], m).Some?
    requires forall i :: 0 <= i < k ==> invoke(handlers[i], m).None?
    ensures Broadcast(handlers, m, invoke).thrown == invoke(handlers[k], m)
    ensures Broadcast(handlers, m, invoke).effects == seq(k + 1, i requires 0 <= i <= k => Deliver(handlers[i], m))
    decreases k
  {
    if k > 0 {
      BroadcastStopsAtFirstThrow(handlers[1..], m, invoke, k - 1);
    }
  }

  /** `_messageHandler(msg)`: the message is acked first, then `decoded`
      (the outcome of decoding its data as JSON) is rehydrated and handed
      to every subscriber. */
  function HandleMessage(t: Transport, decoded: Completion<Value>, fetch: Value -> Completion<Value>,
                         invoke: (Handler, Value) -> Option<Value>): (r: HandlerRun)
    ensures |r.effects| > 0 && r.effects[0] == Ack
    ensures |r.effects| <= |t.subscribers| + 1
    ensures forall i :: 1 <= i < |r.effects| ==> r.effects[i].Deliver? && r.effects[i].handler == t.subscribers[i - 1]
    ensures decoded.Throw? ==> r == HandlerRun([Ack], Some(decoded.error))
  {
    match decoded
    case Throw(e) => HandlerRun([Ack], Some(e))
    case Normal(parsed) =>
      match Rehydrate(parsed, fetch)
      case Throw(e) => HandlerRun([Ack], Some(e))
      case Normal(m) =>
        var run := Broadcast(t.subscribers, m, invoke);
        HandlerRun([Ack] + run.effects, run.thrown)
  }

  /** The message is acked before anything can fail: a message whose data
      does not decode, or whose stored payload cannot be fetched, is acked
      and reaches no handler. */
  lemma AckBeforeDecode(t: Transport, decoded: Completion<Value>, fetch: Value -> Completion<Value>,
                        invoke: (Handler, Value) -> Option<Value>)
    ensures |HandleMessage(t, decoded, fetch, invoke).effects| > 0
    ensures HandleMessage(t, decoded, fetch, invoke).effects[0] == Ack
    ensures decoded.Throw? ==> HandleMessage(t, decoded, fetch, invoke) == HandlerRun([Ack], Some(decoded.error))
    ensures decoded.Normal? && Rehydrate(decoded.value, fetch).Throw? ==>
              HandleMessage(t, decoded, fetch, invoke).effects == [Ack]
  {
  }

  /** A decoded message is delivered, rehydrated, once to each subscriber
      in subscription order when no subscriber throws. */
  lemma EveryMessageReachesEverySubscriber(t: Transport, decoded: Value, fetch: Value -> Completion<Value>,
                                           invoke: (Handler, Value) -> Option<Value>)
    requires Rehydrate(decoded, fetch).Normal?
    requires forall i :: 0 <= i < |t.subscribers| ==> invoke(t.subscribers[i], Rehydrate(decoded, fetch).value).None?
    ensures var m := Rehydrate(decoded, fetch).value;
            var run := HandleMessage(t, Normal(decoded), fetch, invoke);
            && run.thrown.None?
            && run.effects == [Ack] + seq(|t.subscribers|, i requires 0 <= i < |t.subscribers| => Deliver(t.subscribers[i], m))
  {
    BroadcastReachesEveryHandler(t.subscribers, Rehydrate(decoded, fetch).value, invoke);
  }
}
