/** Properties that span the record factory and the task: the tag `commitRecord` acks for a record
    the factory made, and the offset `start` resumes from for a record the host persisted. */
module EndToEnd {
  import opened Wrappers
  import opened Faults
  import Json
  import Amqp
  import opened Connect
  import opened ConnectorConfig
  import opened RabbitMQSourceRecordFactory
  import opened RabbitMQSourceTask

  /** Every AMQP header that reuses the delivery-tag key holds a `Long` or null, the only values
      the `(Long)` cast in `commitRecord` lets through. */
  predicate TagKeyUnclashed(entries: seq<(string, Amqp.Value)>, key: string)
  {
    forall i :: 0 <= i < |entries| && entries[i].0 == key ==> entries[i].1.LongInt? || entries[i].1.Void?
  }

  /** For a record `makeSourceRecord` produced, the appended delivery-tag header is the last one with its key. */
  lemma TagHeaderIsLastMatch(
    config: Config, fields: EnvelopeFields, envelope: Amqp.Envelope, props: Amqp.Properties,
    offset: Amqp.Value, body: string, codec: Codec, now: int, rec: SourceRecord)
    requires codec.parse(body).Some?
    requires Normalized(rec, config, fields, envelope, props, offset, body, codec, now)
    ensures LastIndexOfKey(rec.headers, fields.deliveryTag) == Some(|Entries(props)|)
    ensures rec.headers[|Entries(props)|].value == Raw(Amqp.LongInt(envelope.deliveryTag))
  {
  }

  /** In the record's headers, a header with the tag key passes the cast exactly when the AMQP value it
      came from is a `Long` or null. */
  lemma CastOfConvertedHeader(key: string, v: Amqp.Value, h: HeaderValue)
    requires CoerceValue(key, v) == Success(h)
    ensures CastToLong(h).Success? <==> v.LongInt? || v.Void?
  {
  }

  /** As written: committing a record the factory made acks the envelope's delivery tag, non-multiple,
      exactly when no AMQP header reuses the tag key with a value other than a `Long` or null. */
  lemma AckedTagIsDeliveryTag(
    config: Config, fields: EnvelopeFields, envelope: Amqp.Envelope, props: Amqp.Properties,
    body: string, codec: Codec, now: int, rec: SourceRecord)
    requires MakeSourceRecord(config, fields, envelope, props, body, codec, now) == Success(rec)
    ensures CommitRecord(rec, fields.deliveryTag, false).Success? <==> TagKeyUnclashed(props.headers.value, fields.deliveryTag)
    ensures TagKeyUnclashed(props.headers.value, fields.deliveryTag) ==>
      CommitRecord(rec, fields.deliveryTag, false) == Success(BasicAck(envelope.deliveryTag, false))
  {
  }

  /** Corrected: casting only the last matching header, committing any record the null-safe factory made
      acks exactly the envelope's delivery tag, whatever the AMQP headers hold. */
  lemma AckedTagIsDeliveryTagCorrected(
    config: Config, fields: EnvelopeFields, envelope: Amqp.Envelope, props: Amqp.Properties,
    body: string, codec: Codec, now: int, rec: SourceRecord)
    requires MakeSourceRecordNullSafe(config, fields, envelope, props, body, codec, now) == Success(rec)
    ensures CommitRecordLastMatchOnly(rec, fields.deliveryTag, false) == Success(BasicAck(envelope.deliveryTag, false))
  {
  }

  /** The event every example below parses to; `comment` only when asked for. */
  function ScenarioEvent(withComment: bool): Json.Node
  {
    var fields := map[
      "event_id" := Json.Text("e1"),
      "timestamp" := Json.Text("t1"),
      "command_id" := Json.Text("c1"),
      "payload" := Json.Object(map["x" := Json.Number("1")])];
    Json.Object(if withComment then fields["comment" := Json.Text("note")] else fields)
  }

  function ScenarioCodec(withComment: bool): Codec
  {
    Codec(_ => Some(ScenarioEvent(withComment)), node => if node == Json.Object(map["x" := Json.Number("1")]) then "{\"x\":1}" else "")
  }

  const ScenarioConfig := Config("events", ["orders"], 10, false)
  const ScenarioFields := EnvelopeFields("routingKey", "deliveryTag")
  const ScenarioEnvelope := Amqp.Envelope("orders", 42)

  /** An AMQP header that reuses the delivery-tag key with a string value: the factory builds the record,
      but `commitRecord` as written throws on that header instead of acking tag 42. */
  lemma ClashingHeaderBlocksAck()
    ensures
      var props := Amqp.Properties(None, Some([("deliveryTag", Amqp.LongString("forged"))]));
      var rec := MakeSourceRecord(ScenarioConfig, ScenarioFields, ScenarioEnvelope, props, "body", ScenarioCodec(true), 0);
      && rec.Success?
      && CommitRecord(rec.value, "deliveryTag", false) == Failure(DeliveryTagNotLong)
      && CommitRecordLastMatchOnly(rec.value, "deliveryTag", false) == Success(BasicAck(42, false))
  {
  }

  /** Delivery tag 42 on "orders" with an event lacking `comment`: the code rejects it, because
      `get("comment")` is null. A null header table fails even earlier, at the offset lookup. */
  lemma ScenarioWithoutCommentFails()
    ensures MakeSourceRecord(ScenarioConfig, ScenarioFields, ScenarioEnvelope,
      Amqp.Properties(None, Some([])), "body", ScenarioCodec(false), 0) == Failure(MissingEventField("comment"))
    ensures MakeSourceRecord(ScenarioConfig, ScenarioFields, ScenarioEnvelope,
      Amqp.Properties(None, None), "body", ScenarioCodec(false), 0) == Failure(NullHeaders)
  {
  }

  /** The same delivery with a `comment`: partition "orders", key "e1", the rendered payload, a null
      offset, tag 42 as the only header; and a first start with no stored offsets consumes from "first". */
  lemma ScenarioWithCommentNormalizes(now: int)
    ensures
      var r := MakeSourceRecord(ScenarioConfig, ScenarioFields, ScenarioEnvelope,
        Amqp.Properties(None, Some([])), "body", ScenarioCodec(true), now);
      && r.Success?
      && r.value.sourcePartition == map["routingKey" := "orders"]
      && r.value.sourceOffset == map[OffsetHeader := Amqp.Void]
      && r.value.key == "e1"
      && r.value.value.payload == "{\"x\":1}"
      && r.value.topic == "events"
      && r.value.timestamp == now
      && r.value.headers == [Header("deliveryTag", Raw(Amqp.LongInt(42)))]
    ensures SetupCalls(ScenarioConfig, ScenarioFields, map[], 1)
      == [BasicQos(10, false), BasicConsume("orders", false, map[OffsetHeader := First])]
  {
  }

  /** How the host keeps a record's source offset: a `Long` stays a `Long`, null stays null. */
  function Persist(offset: map<string, Amqp.Value>): map<string, StoredValue>
  {
    map k | k in offset :: match offset[k]
      case Void => StoredNull
      case LongInt(n) => StoredLong(n)
      case _ => StoredOther
  }

  /** Once the host has persisted a record's source offset under its source partition, the queue named by
      the record's routing key resumes at that very offset (no increment), or from "first" when it was null.
      A record from `makeSourceRecord` has exactly this partition and offset shape (see `Normalized`). */
  lemma ResumeFromPersistedRecord(
    config: Config, fields: EnvelopeFields, rec: SourceRecord, offset: Amqp.Value, store: OffsetStore, i: nat)
    requires i < |config.queues|
    requires rec.sourcePartition == map[fields.routingKey := config.queues[i]]
    requires rec.sourceOffset == map[OffsetHeader := offset]
    requires rec.sourcePartition in store && store[rec.sourcePartition] == Persist(rec.sourceOffset)
    ensures offset.LongInt? ==> ResumeArg(config.queues, fields, store, i) == At(offset.n)
    ensures offset.Void? ==> ResumeArg(config.queues, fields, store, i) == First
  {
  }

  /** Adding an offset map under a partition whose routing key differs from `queue` does not change
      whether, or what, `start` finds for `queue`. */
  lemma UnrelatedPartitionInvisible(
    store: OffsetStore, fields: EnvelopeFields, routingKey: string, stored: map<string, StoredValue>, queue: string)
    requires queue != routingKey
    ensures HasStored(store[Partition(fields, routingKey) := stored], fields, queue) <==> HasStored(store, fields, queue)
    ensures HasStored(store, fields, queue) ==>
      store[Partition(fields, routingKey) := stored][Partition(fields, queue)] == store[Partition(fields, queue)]
  {
    assert Partition(fields, queue)[fields.routingKey] != Partition(fields, routingKey)[fields.routingKey];
  }

  /** The most recent stored queue is the same in both stores when they agree on every queue. */
  lemma LastStoredBeforeUnchanged(
    queues: seq<string>, fields: EnvelopeFields, store: OffsetStore, store': OffsetStore, n: nat)
    requires n <= |queues|
    requires forall i :: 0 <= i < |queues| ==> (HasStored(store', fields, queues[i]) <==> HasStored(store, fields, queues[i]))
    ensures LastStoredBefore(queues, fields, store', n) == LastStoredBefore(queues, fields, store, n)
  {
  }

  /** The partition is keyed by the envelope's routing key, `start` looks up the queue name: a record whose
      routing key names no configured queue (a message routed through an exchange under another key) is
      persisted where `start` never looks, so every queue resumes exactly as it would have without it. */
  lemma RoutingKeyOutsideQueuesLeavesResumeUnchanged(
    config: Config, fields: EnvelopeFields, envelope: Amqp.Envelope, rec: SourceRecord, store: OffsetStore, i: nat)
    requires i < |config.queues|
    requires forall q :: 0 <= q < |config.queues| ==> config.queues[q] != envelope.routingKey
    requires rec.sourcePartition == map[fields.routingKey := envelope.routingKey]
    ensures ResumeArg(config.queues, fields, store[rec.sourcePartition := Persist(rec.sourceOffset)], i)
      == ResumeArg(config.queues, fields, store, i)
  {
    var store' := store[rec.sourcePartition := Persist(rec.sourceOffset)];
    forall q | 0 <= q < |config.queues|
      ensures HasStored(store', fields, config.queues[q]) <==> HasStored(store, fields, config.queues[q])
      ensures HasStored(store, fields, config.queues[q]) ==>
        store'[Partition(fields, config.queues[q])] == store[Partition(fields, config.queues[q])]
    {
      UnrelatedPartitionInvisible(store, fields, envelope.routingKey, Persist(rec.sourceOffset), config.queues[q]);
    }
    LastStoredBeforeUnchanged(config.queues, fields, store, store', i + 1);
  }
}
