# RabbitMQ → Kafka Connect source bridge, modelled in Dafny

This project models the decision logic of the Zyston RabbitMQ source connector for Kafka Connect:

- how `RabbitMQSourceRecordFactory.makeSourceRecord` turns one AMQP delivery into a `SourceRecord`. This covers header coercion, the source partition and offset, the appended delivery-tag header, the timestamp fallback and the projection of the JSON body onto the `com.zyston.Event` struct (`ZystonEventSchema.toStruct`);
- how `RabbitMQSourceTask` picks the `x-stream-offset` consume argument for each queue in `start`;
- how `poll` shapes its result;
- how `commitRecord` finds the delivery tag it acknowledges.

Broker calls are modelled as a trace of `Call` values (`BasicQos`, `BasicConsume`, `BasicAck`). Java exceptions are modelled as `Failure(Fault)` results. Jackson's parser and serialiser, the clock, the offset store, `drain`'s output and the ack's I/O outcome are all parameters.

Modules, one per file:

- `Wrappers`: `Option` (Java null) and `Result` (return or throw).
- `Faults`: one constructor per throw site.
- `Json`: Jackson's `get`, `at` and `asText`, over a parsed tree.
- `Amqp`: header values, the header table, the envelope and the properties.
- `Connect`: Connect headers and source records.
- `ConnectorConfig`: the config values and the `EnvelopeSchema` field names, which are parameters here.
- `ZystonEventSchema`: the event schema and `toStruct`.
- `RabbitMQSourceRecordFactory`: header coercion and `makeSourceRecord`.
- `RabbitMQSourceTask`: the `start` loop, `poll` and `commitRecord`.
- `EndToEnd`: properties that span the factory and the task.

Behaviour of the code worth noting:

- `offsetValue` is a field that `start` never resets between queues. A queue with no stored offset map is therefore consumed from the previous queue's offset, not from "first" as the `requireNonNullElse(offsetValue, "first")` fallback suggests, and its earlier messages are skipped (`RabbitMQSourceTask.CarryOverSkipsUnstoredQueue`; see Findings).

- An event without a `comment` field is rejected. `get("comment")` returns null and `asText()` throws, even though the schema declares `comment` optional. So a body with only `event_id`, `timestamp`, `command_id` and `payload` produces no record (`EndToEnd.ScenarioWithoutCommentFails`).
- On restart a queue whose stored offset map is found is consumed from the stored offset itself, not from the position after it. The stored `Long` is passed to `basicConsume` unchanged, so the last committed message can be delivered again.
- The source partition is keyed by the envelope's routing key, but `start` looks offsets up under the queue name. A message that reached its queue under a different routing key (through an exchange) is persisted under a partition `start` never asks for, so it has no effect on resumption (`EndToEnd.RoutingKeyOutsideQueuesLeavesResumeUnchanged`).
- A body that fails to parse makes `makeSourceRecord` throw. The code does not contain that failure; what the caller (`ConnectConsumer`) does with it is not part of this model.
- A record whose header table is null is not built at all. The offset lookup dereferences the table before the null check.

## Model

| member | source | states |
|---|---|---|
| ZystonEventSchema.SchemaShape | src/main/java/com/zyston/eventstreams/connect/rabbitmqsource/schema/ZystonEventSchema.java:17-25 | the schema has exactly five distinct fields, and only `comment` is optional |
| ZystonEventSchema.GetDefinedExactlyOnSchema | src/main/java/com/zyston/eventstreams/connect/rabbitmqsource/schema/ZystonEventSchema.java:17-25 | a struct field can be read by name exactly when the schema declares that name |
| ZystonEventSchema.ToStruct | src/main/java/com/zyston/eventstreams/connect/rabbitmqsource/schema/ZystonEventSchema.java:27-34 | succeeds iff `event_id`, `timestamp`, `command_id` and `comment` are all present in the JSON object; otherwise fails naming the first absent one in reading order; on success each of those struct fields is the `asText` of the JSON field with the same name, `payload` is the supplied string verbatim, and no schema field is null |
| ZystonEventSchema.NullCommentReadsAsText | src/main/java/com/zyston/eventstreams/connect/rabbitmqsource/schema/ZystonEventSchema.java:32 | an explicit JSON `null` comment does not fail; it becomes the text "null" |
| Amqp.Lookup | src/main/java/com/zyston/eventstreams/connect/rabbitmqsource/sourcerecord/RabbitMQSourceRecordFactory.java:94 | `headers.get(key)` yields the value of the entry with that key, or null when no entry has it |
| RabbitMQSourceRecordFactory.ListToStrings | src/main/java/com/zyston/eventstreams/connect/rabbitmqsource/sourcerecord/RabbitMQSourceRecordFactory.java:75-82 | a list header converts iff every element is a `LongString`; the result has the same length and order, each element's string form |
| RabbitMQSourceRecordFactory.CoerceValue | src/main/java/com/zyston/eventstreams/connect/rabbitmqsource/sourcerecord/RabbitMQSourceRecordFactory.java:71-82 | a `LongString` becomes its string, a list becomes the element-wise list of strings, and any other value (null included) passes through unchanged; it fails only for a list with a non-`LongString` element |
| RabbitMQSourceRecordFactory.ToConnectHeaders | src/main/java/com/zyston/eventstreams/connect/rabbitmqsource/sourcerecord/RabbitMQSourceRecordFactory.java:67-89 | one header per AMQP entry, with the same keys in the same iteration order and each value coerced; it fails exactly when some entry cannot be coerced, and the error names the first such key |
| RabbitMQSourceRecordFactory.MakeSourceRecord | src/main/java/com/zyston/eventstreams/connect/rabbitmqsource/sourcerecord/RabbitMQSourceRecordFactory.java:91-131 | a null header table always fails; otherwise it succeeds iff the headers convert, the body parses and the event has its four text fields, and the failure reported follows the code's order: the first header key that does not convert, then a malformed body, then the first missing event field. The record has: topic = `kafkaTopic`; partition {routing-key field ↦ routing key}; offset {`x-stream-offset` ↦ that header's value, possibly null}; headers = the converted AMQP headers followed by exactly one delivery-tag header, last (count + 1); timestamp = producer timestamp else the clock; value = the event struct; key = its `event_id` |
| RabbitMQSourceRecordFactory.NullHeadersAlwaysFail | src/main/java/com/zyston/eventstreams/connect/rabbitmqsource/sourcerecord/RabbitMQSourceRecordFactory.java:94 | with a null header table, `makeSourceRecord` fails at the offset lookup for every body and envelope, despite the later null guard |
| RabbitMQSourceRecordFactory.MakeSourceRecordNullSafe | src/main/java/com/zyston/eventstreams/connect/rabbitmqsource/sourcerecord/RabbitMQSourceRecordFactory.java:93-102 | the guarded variant succeeds exactly when the later steps do; with null headers it yields a null offset and only the delivery-tag header; with headers present it agrees with the code as written |
| RabbitMQSourceTask.LastStoredBefore | src/main/java/com/zyston/eventstreams/connect/rabbitmqsource/RabbitMQSourceTask.java:78-86 | finds the most recent queue, among the first n, for which the offset store has a map, or reports that none has one |
| RabbitMQSourceTask.SetupCalls | src/main/java/com/zyston/eventstreams/connect/rabbitmqsource/RabbitMQSourceTask.java:76-91 | for each queue in config order: exactly one `basicQos(prefetchCount, prefetchGlobal)`, then one `basicConsume(queue, autoAck=false, {x-stream-offset ↦ resume argument})`, so 2 calls per queue |
| RabbitMQSourceTask.Start | src/main/java/com/zyston/eventstreams/connect/rabbitmqsource/RabbitMQSourceTask.java:76-95 | the loop with a single `offsetValue` shared across queues issues exactly those calls; it fails iff some queue's stored entry is neither null nor a `Long`, and then stops at the first such queue, having issued the calls for the queues before it |
| RabbitMQSourceTask.ResumeArgFollowsMostRecentStore | src/main/java/com/zyston/eventstreams/connect/rabbitmqsource/RabbitMQSourceTask.java:79-91 | queue i's argument comes from the most recent stored map among queues 0..i: the stored `Long` unchanged (no increment), or "first" when that entry is null or absent |
| RabbitMQSourceTask.ResumeArgCarriesOver | src/main/java/com/zyston/eventstreams/connect/rabbitmqsource/RabbitMQSourceTask.java:39-91 | a queue with no stored map keeps the previous queue's `offsetValue`, so it gets the same argument |
| RabbitMQSourceTask.ResumeFromFirstWithoutStore | src/main/java/com/zyston/eventstreams/connect/rabbitmqsource/RabbitMQSourceTask.java:91 | until some queue has a stored map, each queue is consumed from "first" |
| RabbitMQSourceTask.CarryOverSkipsUnstoredQueue | src/main/java/com/zyston/eventstreams/connect/rabbitmqsource/RabbitMQSourceTask.java:78-91 | with queues A, B and only A stored at offset 7, queue B (nothing stored) is consumed from 7, whereas a fresh lookup would give "first" |
| RabbitMQSourceTask.StartResettingOffset | src/main/java/com/zyston/eventstreams/connect/rabbitmqsource/RabbitMQSourceTask.java:76-95 | the loop with `offsetValue` reset per queue: the same Qos/Consume pairs and the same cast failure, but a queue without a stored map always starts from "first", and one with a stored `Long` starts from exactly that offset |
| RabbitMQSourceTask.FreshResumeAgreesOnStoredQueues | src/main/java/com/zyston/eventstreams/connect/rabbitmqsource/RabbitMQSourceTask.java:78-91 | for a queue with its own stored map, the per-queue reset gives the same argument as the code as written |
| RabbitMQSourceTask.Poll | src/main/java/com/zyston/eventstreams/connect/rabbitmqsource/RabbitMQSourceTask.java:104-117 | returns none exactly when the drained batch is empty, and otherwise the batch unchanged; it sleeps iff `drain` reported false |
| RabbitMQSourceTask.PollsDeliverEveryDrainedRecord | src/main/java/com/zyston/eventstreams/connect/rabbitmqsource/RabbitMQSourceTask.java:104-117 | over any run of polls that return, the host receives exactly the drained records, in drain order, none lost or repeated |
| RabbitMQSourceTask.LastIndexOfKey | src/main/java/com/zyston/eventstreams/connect/rabbitmqsource/RabbitMQSourceTask.java:152-156 | finds the last header with the given key, or reports that no header has it |
| RabbitMQSourceTask.ScanDeliveryTag | src/main/java/com/zyston/eventstreams/connect/rabbitmqsource/RabbitMQSourceTask.java:151-156 | the `forEach` succeeds iff every header with the key holds a `Long` or null; the tag kept is the last such header's value (null when none) |
| RabbitMQSourceTask.CommitRecord | src/main/java/com/zyston/eventstreams/connect/rabbitmqsource/RabbitMQSourceTask.java:150-162 | on success, exactly one non-multiple ack of the last matching header's `Long`; it succeeds iff the ack does not fail, every match casts, and the last match is a non-null `Long`; with no match or a null last match it fails as a null tag, even if the ack would have worked; a rejected cast is reported as such; an ack I/O error is never swallowed, and once a non-null tag was found it surfaces as the interruption |
| RabbitMQSourceTask.CommitRecordLastMatchOnly | src/main/java/com/zyston/eventstreams/connect/rabbitmqsource/RabbitMQSourceTask.java:150-162 | the corrected lookup acks the last matching header's `Long`, non-multiple; it succeeds iff the ack does not fail and that header holds a non-null `Long`, whatever earlier matches hold; a missing or null last match is a null tag, a non-`Long` one a rejected cast; an ack I/O error on that tag surfaces as the interruption |
| RabbitMQSourceTask.LastMatchOnlyAgreesWhenCommitSucceeds | src/main/java/com/zyston/eventstreams/connect/rabbitmqsource/RabbitMQSourceTask.java:152-158 | wherever the code as written acks, the corrected lookup acks the same tag |
| EndToEnd.TagHeaderIsLastMatch | src/main/java/com/zyston/eventstreams/connect/rabbitmqsource/sourcerecord/RabbitMQSourceRecordFactory.java:98-102 | in a produced record, the appended delivery-tag header is the last header with that key, and it holds the envelope's tag |
| EndToEnd.CastOfConvertedHeader | src/main/java/com/zyston/eventstreams/connect/rabbitmqsource/sourcerecord/RabbitMQSourceRecordFactory.java:71-82 | a converted header survives `commitRecord`'s `(Long)` cast iff its AMQP value was a `Long` or null |
| EndToEnd.AckedTagIsDeliveryTag | src/main/java/com/zyston/eventstreams/connect/rabbitmqsource/sourcerecord/RabbitMQSourceRecordFactory.java:102 | committing a produced record acks `envelope.getDeliveryTag()` with multiple=false, exactly when no AMQP header reuses the tag key with a value other than a `Long` or null |
| EndToEnd.AckedTagIsDeliveryTagCorrected | src/main/java/com/zyston/eventstreams/connect/rabbitmqsource/RabbitMQSourceTask.java:150-162 | with the corrected lookup and the null-safe factory, committing any produced record acks exactly the envelope's tag, non-multiple |
| EndToEnd.ClashingHeaderBlocksAck | src/main/java/com/zyston/eventstreams/connect/rabbitmqsource/RabbitMQSourceTask.java:152-156 | an AMQP header `deliveryTag = "forged"` lets the factory build the record, but the code as written then fails to ack tag 42, while the corrected lookup acks it |
| EndToEnd.ScenarioWithoutCommentFails | src/main/java/com/zyston/eventstreams/connect/rabbitmqsource/schema/ZystonEventSchema.java:32 | tag 42 on "orders" with no `comment` field yields no record (missing `comment`); with a null header table it fails earlier (null headers) |
| EndToEnd.ScenarioWithCommentNormalizes | src/main/java/com/zyston/eventstreams/connect/rabbitmqsource/sourcerecord/RabbitMQSourceRecordFactory.java:91-131 | with a comment the record has partition "orders", key "e1", payload `{"x":1}`, a null offset and the tag-42 header as its only header; a first start then consumes "orders" from "first" |
| EndToEnd.ResumeFromPersistedRecord | src/main/java/com/zyston/eventstreams/connect/rabbitmqsource/RabbitMQSourceTask.java:84-91 | for a record whose routing key is the name of queue i, once its offset map is stored under its partition, queue i resumes at exactly that `x-stream-offset` (no increment), or from "first" when it was null |
| EndToEnd.RoutingKeyOutsideQueuesLeavesResumeUnchanged | src/main/java/com/zyston/eventstreams/connect/rabbitmqsource/sourcerecord/RabbitMQSourceRecordFactory.java:93 | a record whose routing key names no configured queue is persisted under a partition `start` never looks up: every queue's resume argument is the same with or without it |

## Findings

| source | as written | input that shows it | evidently intended | confidence | as-written member | corrected member |
|---|---|---|---|---|---|---|
| src/main/java/com/zyston/eventstreams/connect/rabbitmqsource/RabbitMQSourceTask.java:152-156 | each header whose key is the delivery-tag field is cast to `Long`, not only the last one kept | an AMQP header with the delivery-tag key and a `LongString` value; the factory turns it into a `String` header placed before the appended tag | ack the appended (last) tag; ignore earlier headers with the same key | medium, not executed | EndToEnd.ClashingHeaderBlocksAck | EndToEnd.AckedTagIsDeliveryTagCorrected |
| src/main/java/com/zyston/eventstreams/connect/rabbitmqsource/sourcerecord/RabbitMQSourceRecordFactory.java:94 | `getHeaders().get(OffsetHeader)` runs before the `getHeaders() != null` guard at line 99 | any delivery whose properties carry no header table | a null source offset, and a record whose only header is the delivery tag | high, not executed | RabbitMQSourceRecordFactory.NullHeadersAlwaysFail | RabbitMQSourceRecordFactory.MakeSourceRecordNullSafe |
| src/main/java/com/zyston/eventstreams/connect/rabbitmqsource/RabbitMQSourceTask.java:39 | `offsetValue` is a field kept across the queue loop and only assigned when a stored map is found | queues A, B; only A has a stored offset 7 | each queue without stored state is consumed from "first" | high, not executed | RabbitMQSourceTask.CarryOverSkipsUnstoredQueue | RabbitMQSourceTask.StartResettingOffset |

## Left out

- EndToEnd.ResumeFromPersistedRecord: covers only records whose routing key equals the queue name, since only those are stored under the partition `start` looks up; the other case is `EndToEnd.RoutingKeyOutsideQueuesLeavesResumeUnchanged`.
- The handoff queue (`SourceRecordConcurrentLinkedQueue`) and its concurrency are not part of this model. `poll` takes the drained batch and `drain`'s boolean as inputs, so any bound on batch size lies in `drain`. The 4096 in `poll` is only an initial capacity.
- `Thread.sleep(1000)` and interruption: `Poll` records only whether it sleeps.
- Connection and channel creation, and the `ConnectException` raised when they, `basicQos` or `basicConsume` fail: broker I/O. `Start` assumes the broker accepts every call.
- `stop()`, `version()` and logging.
- `ConnectConsumer` (the delivery callback), `ValueSchema.toStruct`, `EnvelopeSchema` and `RabbitMQSourceConnectorConfig` are not part of this model. The message body reaches the factory as a string. The routing-key and delivery-tag field names, the topic, the queues and the prefetch settings are parameters.
- Jackson's `readTree` and `JsonNode.toString()` are the `Codec` parameter. `asText` is modelled for text nodes, booleans, null, missing nodes and containers. A number's text is taken to be its lexeme, with no floating-point formatting.
- Kafka `Struct`/`Schema` runtime validation, the header's `BYTES_SCHEMA`, the `with`/`rename` stubs that return null, and the record's null Kafka partition and its key/value schema objects.
- `SystemTime`: the clock is the `now` parameter.
- Java `long` width: delivery tags, offsets and timestamps are unbounded integers. The bridge does no arithmetic on them, so no wrap-around can arise.
- Stored offset values are distinguished only as null, `Long` or other, which is as far as the `(Long)` cast looks. The offset store is assumed to return the same answer to the three lookups `start` makes per queue.
- `RabbitMQSourceTask.Start`: on a stored offset that is not a `Long`, the trace stops before that queue's calls. The exception then leaves `start`, as in the code.
- `EndToEnd.Persist`: how the host's offset store keeps a record's source offset is outside the bridge. It is modelled as keeping a `Long` as a `Long` and null as null.
