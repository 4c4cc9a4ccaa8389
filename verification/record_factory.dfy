/** `RabbitMQSourceRecordFactory`: turns one AMQP delivery into one Kafka Connect source record. */
module RabbitMQSourceRecordFactory {
  import opened Wrappers
  import opened Faults
  import Json
  import Amqp
  import opened Connect
  import ZystonEventSchema
  import opened ConnectorConfig
  import opened RabbitMQSourceTask

  /** Jackson as the factory uses it: `readTree` (None when it throws) and `JsonNode.toString()`. */
  datatype Codec = Codec(parse: string -> Option<Json.Node>, render: Json.Node -> string)

  /** A header value `toConnectHeaders` can convert: anything but a list with a non-`LongString` element. */
  predicate Coercible(v: Amqp.Value)
  {
    v.FieldArray? ==> forall i :: 0 <= i < |v.items| ==> v.items[i].LongString?
  }

  /** The loop over a list-valued header: each element is cast to `LongString` and rendered. */
  function ListToStrings(key: string, items: seq<Amqp.Value>): (r: Result<seq<string>, Fault>)
    ensures r.Success? <==> forall i :: 0 <= i < |items| ==> items[i].LongString?
    ensures r.Success? ==> |r.value| == |items| && forall i :: 0 <= i < |items| ==> r.value[i] == items[i].text
    ensures r.Failure? ==> r.error == ListElementNotLongString(key)
  {
    if |items| == 0 then Success([])
    else if !items[0].LongString? then Failure(ListElementNotLongString(key))
    else
      var rest :- ListToStrings(key, items[1..]);
      Success([items[0].text] + rest)
  }

  /** The coercion `toConnectHeaders` applies to one header value. */
  function CoerceValue(key: string, v: Amqp.Value): (r: Result<HeaderValue, Fault>)
    ensures r.Success? <==> Coercible(v)
    ensures v.LongString? ==> r == Success(Str(v.text))
    ensures v.FieldArray? && r.Success? ==>
      r.value.StrList? && |r.value.items| == |v.items|
      && forall i :: 0 <= i < |v.items| ==> r.value.items[i] == v.items[i].text
    ensures !v.LongString? && !v.FieldArray? ==> r == Success(Raw(v))
    ensures r.Failure? ==> r.error == ListElementNotLongString(key)
  {
    match v
    case LongString(text) => Success(Str(text))
    case FieldArray(items) =>
      var strings :- ListToStrings(key, items);
      Success(StrList(strings))
    case _ => Success(Raw(v))
  }

  /** `toConnectHeaders`: one Connect header per AMQP header, same keys, same iteration order. */
  function ToConnectHeaders(entries: seq<(string, Amqp.Value)>): (r: Result<seq<Header>, Fault>)
    ensures r.Success? <==> forall i :: 0 <= i < |entries| ==> Coercible(entries[i].1)
    ensures r.Success? ==>
      |r.value| == |entries|
      && forall i :: 0 <= i < |entries| ==>
        r.value[i].key == entries[i].0 && CoerceValue(entries[i].0, entries[i].1) == Success(r.value[i].value)
    ensures r.Failure? ==>
      exists k :: 0 <= k < |entries| && !Coercible(entries[k].1)
        && (forall j :: 0 <= j < k ==> Coercible(entries[j].1))
        && r.error == ListElementNotLongString(entries[k].0)
  {
    if |entries| == 0 then Success([])
    else
      var value :- CoerceValue(entries[0].0, entries[0].1);
      var rest :- ToConnectHeaders(entries[1..]);
      assert forall i :: 1 <= i < |entries| ==> entries[i] == entries[1..][i - 1];
      Success([Header(entries[0].0, value)] + rest)
  }

  /** The header `makeSourceRecord` always appends: the envelope's delivery tag, a `Long`. */
  function DeliveryTagHeader(fields: EnvelopeFields, envelope: Amqp.Envelope): Header
  {
    Header(fields.deliveryTag, Raw(Amqp.LongInt(envelope.deliveryTag)))
  }

  /** The AMQP header entries, none when the table is null. */
  function Entries(props: Amqp.Properties): seq<(string, Amqp.Value)>
  {
    if props.headers.Some? then props.headers.value else []
  }

  /** Whether every step after the offset lookup succeeds: headers convert, the body parses, the event has its fields. */
  ghost predicate Normalizable(props: Amqp.Properties, body: string, codec: Codec)
  {
    && (forall i :: 0 <= i < |Entries(props)| ==> Coercible(Entries(props)[i].1))
    && codec.parse(body).Some?
    && (forall i :: 0 <= i < |ZystonEventSchema.TextFields| ==>
          Json.Get(codec.parse(body).value, ZystonEventSchema.TextFields[i]).Some?)
  }

  /** What a normalised record holds, given the offset value the factory looked up. */
  ghost predicate Normalized(
    rec: SourceRecord, config: Config, fields: EnvelopeFields, envelope: Amqp.Envelope,
    props: Amqp.Properties, offset: Amqp.Value, body: string, codec: Codec, now: int)
    requires codec.parse(body).Some?
  {
    var amqp := Entries(props);
    var root := codec.parse(body).value;
    && rec.topic == config.kafkaTopic
    && rec.sourcePartition == map[fields.routingKey := envelope.routingKey]
    && rec.sourceOffset == map[OffsetHeader := offset]
    // the converted AMQP headers, then exactly one delivery-tag header, last
    && |rec.headers| == |amqp| + 1
    && (forall i :: 0 <= i < |amqp| ==>
          rec.headers[i].key == amqp[i].0 && CoerceValue(amqp[i].0, amqp[i].1) == Success(rec.headers[i].value))
    && rec.headers[|amqp|] == DeliveryTagHeader(fields, envelope)
    // producer timestamp, else the clock
    && rec.timestamp == props.timestamp.GetOr(now)
    // the event struct and its `event_id` as key
    && (forall i :: 0 <= i < |ZystonEventSchema.TextFields| ==>
          Json.Get(root, ZystonEventSchema.TextFields[i]).Some?
          && ZystonEventSchema.Get(rec.value, ZystonEventSchema.TextFields[i])
            == Some(Json.AsText(Json.Get(root, ZystonEventSchema.TextFields[i]).value)))
    && ZystonEventSchema.Get(rec.value, ZystonEventSchema.Payload) == Some(codec.render(Json.At(root, "payload")))
    && ZystonEventSchema.Get(rec.value, ZystonEventSchema.EventId) == Some(rec.key)
  }

  /** The event struct of a parsed body: `toStruct(parentJson, parentJson.at("/payload").toString())`. */
  function EventOf(codec: Codec, root: Json.Node): Result<ZystonEventSchema.Event, Fault>
  {
    ZystonEventSchema.ToStruct(root, codec.render(Json.At(root, "payload")))
  }

  /** Everything `makeSourceRecord` does after computing the source offset. */
  function Build(
    config: Config, fields: EnvelopeFields, envelope: Amqp.Envelope, props: Amqp.Properties,
    offset: Amqp.Value, body: string, codec: Codec, now: int): (r: Result<SourceRecord, Fault>)
    ensures r.Success? <==> Normalizable(props, body, codec)
    ensures r.Success? ==> Normalized(r.value, config, fields, envelope, props, offset, body, codec, now)
    ensures (codec.parse(body).None? && forall i :: 0 <= i < |Entries(props)| ==> Coercible(Entries(props)[i].1))
      ==> r == Failure(MalformedBody)
    // A header that cannot be converted fails first, naming the first such key.
    ensures ToConnectHeaders(Entries(props)).Failure? ==> r == Failure(ToConnectHeaders(Entries(props)).error)
    // With convertible headers and a parsed body, a missing event field is the failure reported.
    ensures (ToConnectHeaders(Entries(props)).Success? && codec.parse(body).Some?
             && EventOf(codec, codec.parse(body).value).Failure?)
      ==> r == Failure(EventOf(codec, codec.parse(body).value).error)
  {
    var amqpHeaders :- ToConnectHeaders(Entries(props));
    var headers := amqpHeaders + [DeliveryTagHeader(fields, envelope)];
    var root :- (match codec.parse(body) case Some(n) => Success(n) case None => Failure(MalformedBody));
    var event :- EventOf(codec, root);
    var timestamp := props.timestamp.GetOr(now);
    Success(SourceRecord(
      map[fields.routingKey := envelope.routingKey],
      map[OffsetHeader := offset],
      config.kafkaTopic,
      ZystonEventSchema.Get(event, ZystonEventSchema.EventId).value,
      event,
      timestamp,
      headers))
  }

  /** `makeSourceRecord` as written: the offset is read from the header table before the null guard,
      so a message without headers always fails. */
  function MakeSourceRecord(
    config: Config, fields: EnvelopeFields, envelope: Amqp.Envelope, props: Amqp.Properties,
    body: string, codec: Codec, now: int): (r: Result<SourceRecord, Fault>)
    ensures props.headers.None? ==> r == Failure(NullHeaders)
    ensures r.Success? <==> props.headers.Some? && Normalizable(props, body, codec)
    ensures r.Success? ==>
      Normalized(r.value, config, fields, envelope, props, Amqp.Lookup(props.headers.value, OffsetHeader), body, codec, now)
    ensures (props.headers.Some? && codec.parse(body).None?
             && forall i :: 0 <= i < |props.headers.value| ==> Coercible(props.headers.value[i].1))
      ==> r == Failure(MalformedBody)
    ensures props.headers.Some? && ToConnectHeaders(props.headers.value).Failure? ==>
      r == Failure(ToConnectHeaders(props.headers.value).error)
    ensures (props.headers.Some? && ToConnectHeaders(props.headers.value).Success? && codec.parse(body).Some?
             && EventOf(codec, codec.parse(body).value).Failure?)
      ==> r == Failure(EventOf(codec, codec.parse(body).value).error)
  {
    if props.headers.None? then Failure(NullHeaders)
    else Build(config, fields, envelope, props, Amqp.Lookup(props.headers.value, OffsetHeader), body, codec, now)
  }

  /** The offset the guarded lookup reads: null when the header table is null. */
  function NullSafeOffset(props: Amqp.Properties): Amqp.Value
  {
    if props.headers.Some? then Amqp.Lookup(props.headers.value, OffsetHeader) else Amqp.Void
  }

  /** `makeSourceRecord` with the offset lookup guarded like the header conversion: a null table gives a null offset. */
  function MakeSourceRecordNullSafe(
    config: Config, fields: EnvelopeFields, envelope: Amqp.Envelope, props: Amqp.Properties,
    body: string, codec: Codec, now: int): (r: Result<SourceRecord, Fault>)
    ensures r.Success? <==> Normalizable(props, body, codec)
    ensures r.Success? ==> Normalized(r.value, config, fields, envelope, props, NullSafeOffset(props), body, codec, now)
    ensures r.Success? && props.headers.None? ==>
      r.value.sourceOffset == map[OffsetHeader := Amqp.Void] && r.value.headers == [DeliveryTagHeader(fields, envelope)]
    ensures props.headers.Some? ==> r == MakeSourceRecord(config, fields, envelope, props, body, codec, now)
  {
    Build(config, fields, envelope, props, NullSafeOffset(props), body, codec, now)
  }

  /** As written, no message with a null header table yields a record, whatever its body. */
  lemma NullHeadersAlwaysFail(
    config: Config, fields: EnvelopeFields, envelope: Amqp.Envelope, timestamp: Option<int>,
    body: string, codec: Codec, now: int)
    ensures MakeSourceRecord(config, fields, envelope, Amqp.Properties(timestamp, None), body, codec, now)
      == Failure(NullHeaders)
  {
  }
}
