/** `RabbitMQSourceTask`: the per-queue resume loop of `start`, the shape of `poll`'s result,
    and the delivery-tag lookup and acknowledgement of `commitRecord`. Broker calls appear as a trace. */
module RabbitMQSourceTask {
  import opened Wrappers
  import opened Faults
  import Amqp
  import opened Connect
  import opened ConnectorConfig

  /** The header, and the consume argument, that carry a stream position. */
  const OffsetHeader := "x-stream-offset"

  /** The value of the `x-stream-offset` consume argument: a stored `Long`, or the literal "first". */
  datatype OffsetArg = At(offset: int) | First

  /** The channel calls the task issues. */
  datatype Call =
    | BasicQos(prefetchCount: int, global: bool)
    | BasicConsume(queue: string, autoAck: bool, arguments: map<string, OffsetArg>)
    | BasicAck(deliveryTag: int, multiple: bool)

  /** A value in a stored offset map, as far as the `(Long)` cast distinguishes it. */
  datatype StoredValue = StoredNull | StoredLong(n: int) | StoredOther

  /** The host's offset store: a source partition maps to its stored offset map. A partition
      absent here is one for which `offsetStorageReader().offset(...)` returns null. */
  type OffsetStore = map<map<string, string>, map<string, StoredValue>>

  /** The partition `start` looks up for a queue: the routing-key field mapped to the queue name. */
  function Partition(fields: EnvelopeFields, queue: string): map<string, string>
  {
    map[fields.routingKey := queue]
  }

  predicate HasStored(store: OffsetStore, fields: EnvelopeFields, queue: string)
  {
    Partition(fields, queue) in store
  }

  /** `stored.get(OffsetHeader)`: an absent entry reads as null. */
  function StoredOffset(stored: map<string, StoredValue>): StoredValue
  {
    if OffsetHeader in stored then stored[OffsetHeader] else StoredNull
  }

  /** Queue `i` has a stored offset map whose entry the `(Long)` cast rejects. */
  predicate CastFails(queues: seq<string>, fields: EnvelopeFields, store: OffsetStore, i: nat)
    requires i < |queues|
  {
    HasStored(store, fields, queues[i]) && StoredOffset(store[Partition(fields, queues[i])]).StoredOther?
  }

  /** The most recent of the first `n` queues that has a stored offset map. */
  function LastStoredBefore(queues: seq<string>, fields: EnvelopeFields, store: OffsetStore, n: nat): (r: Option<nat>)
    requires n <= |queues|
    ensures r.Some? ==>
      r.value < n && HasStored(store, fields, queues[r.value])
      && forall j :: r.value < j < n ==> !HasStored(store, fields, queues[j])
    ensures r.None? ==> forall j :: 0 <= j < n ==> !HasStored(store, fields, queues[j])
  {
    if n == 0 then None
    else if HasStored(store, fields, queues[n - 1]) then Some(n - 1)
    else LastStoredBefore(queues, fields, store, n - 1)
  }

  /** The `offsetValue` in effect once the first `n` queues have been looked up: the entry of the most
      recent stored map, or null when no earlier queue had one. */
  function CarriedOffset(queues: seq<string>, fields: EnvelopeFields, store: OffsetStore, n: nat): Option<int>
    requires n <= |queues|
  {
    match LastStoredBefore(queues, fields, store, n)
    case None => None
    case Some(j) =>
      match StoredOffset(store[Partition(fields, queues[j])])
      case StoredLong(v) => Some(v)
      case _ => None
  }

  /** The `x-stream-offset` argument queue `i` is consumed with: `requireNonNullElse(offsetValue, "first")`. */
  function ResumeArg(queues: seq<string>, fields: EnvelopeFields, store: OffsetStore, i: nat): OffsetArg
    requires i < |queues|
  {
    match CarriedOffset(queues, fields, store, i + 1)
    case Some(v) => At(v)
    case None => First
  }

  /** The calls `start` issues for the first `k` queues: for each, in configuration order, one
      `basicQos` then one non-auto-ack `basicConsume` carrying the resume argument. */
  function SetupCalls(config: Config, fields: EnvelopeFields, store: OffsetStore, k: nat): (r: seq<Call>)
    requires k <= |config.queues|
    ensures |r| == 2 * k
    ensures forall j :: 0 <= j < |r| ==>
      r[j] == if j % 2 == 0 then BasicQos(config.prefetchCount, config.prefetchGlobal)
              else BasicConsume(config.queues[j / 2], false,
                                map[OffsetHeader := ResumeArg(config.queues, fields, store, j / 2)])
  {
    if k == 0 then []
    else
      SetupCalls(config, fields, store, k - 1)
      + [BasicQos(config.prefetchCount, config.prefetchGlobal),
         BasicConsume(config.queues[k - 1], false,
                      map[OffsetHeader := ResumeArg(config.queues, fields, store, k - 1)])]
  }

  /** The calls `start` made, and the exception that stopped it, if any. */
  datatype Setup = Setup(calls: seq<Call>, failure: Option<Fault>)

  /** The per-queue loop of `start`. `offsetValue` is shared by all iterations and only overwritten
      when a stored offset map exists for the queue. */
  method Start(config: Config, fields: EnvelopeFields, store: OffsetStore) returns (s: Setup)
    ensures s.failure.None? <==> forall i :: 0 <= i < |config.queues| ==> !CastFails(config.queues, fields, store, i)
    ensures s.failure.None? ==> s.calls == SetupCalls(config, fields, store, |config.queues|)
    ensures s.failure.Some? ==>
      exists k :: 0 <= k < |config.queues| && CastFails(config.queues, fields, store, k)
        && (forall j :: 0 <= j < k ==> !CastFails(config.queues, fields, store, j))
        && s.calls == SetupCalls(config, fields, store, k)
        && s.failure == Some(StoredOffsetNotLong(config.queues[k]))
  {
    var offsetValue: Option<int> := None;
    var calls: seq<Call> := [];
    var i := 0;
    while i < |config.queues|
      invariant 0 <= i <= |config.queues|
      invariant calls == SetupCalls(config, fields, store, i)
      invariant offsetValue == CarriedOffset(config.queues, fields, store, i)
      invariant forall j :: 0 <= j < i ==> !CastFails(config.queues, fields, store, j)
    {
      var queue := config.queues[i];
      var partition := map[fields.routingKey := queue];
      if partition in store {
        match StoredOffset(store[partition])
        case StoredOther =>
          assert CastFails(config.queues, fields, store, i);
          return Setup(calls, Some(StoredOffsetNotLong(queue)));
        case StoredNull =>
          offsetValue := None;
        case StoredLong(v) =>
          offsetValue := Some(v);
      }
      var arg := if offsetValue.Some? then At(offsetValue.value) else First;
      calls := calls + [BasicQos(config.prefetchCount, config.prefetchGlobal),
                        BasicConsume(queue, false, map[OffsetHeader := arg])];
      i := i + 1;
    }
    return Setup(calls, None);
  }

  /** Queue `i` resumes from the most recent stored map among queues `0..i`: the stored `Long`
      unchanged, or "first" when that entry is null or absent. */
  lemma ResumeArgFollowsMostRecentStore(queues: seq<string>, fields: EnvelopeFields, store: OffsetStore, i: nat, j: nat)
    requires j <= i < |queues|
    requires HasStored(store, fields, queues[j])
    requires forall m :: j < m <= i ==> !HasStored(store, fields, queues[m])
    ensures StoredOffset(store[Partition(fields, queues[j])]).StoredLong? ==>
      ResumeArg(queues, fields, store, i) == At(StoredOffset(store[Partition(fields, queues[j])]).n)
    ensures StoredOffset(store[Partition(fields, queues[j])]).StoredNull? ==>
      ResumeArg(queues, fields, store, i) == First
  {
  }

  /** A queue without a stored map inherits the previous queue's argument. */
  lemma ResumeArgCarriesOver(queues: seq<string>, fields: EnvelopeFields, store: OffsetStore, i: nat)
    requires 0 < i < |queues|
    requires !HasStored(store, fields, queues[i])
    ensures ResumeArg(queues, fields, store, i) == ResumeArg(queues, fields, store, i - 1)
  {
  }

  /** Until some queue has a stored map, every queue is consumed from "first". */
  lemma ResumeFromFirstWithoutStore(queues: seq<string>, fields: EnvelopeFields, store: OffsetStore, i: nat)
    requires i < |queues|
    requires forall j :: 0 <= j <= i ==> !HasStored(store, fields, queues[j])
    ensures ResumeArg(queues, fields, store, i) == First
  {
  }

  /** Because `offsetValue` is never reset, a queue with no stored offset is consumed from the previous
      queue's offset rather than from "first": with only queue "A" stored at 7, queue "B" starts at 7 and
      its messages before 7 are never delivered. */
  lemma CarryOverSkipsUnstoredQueue()
    ensures
      var fields := EnvelopeFields("routingKey", "deliveryTag");
      var store: OffsetStore := map[Partition(fields, "A") := map[OffsetHeader := StoredLong(7)]];
      && !HasStored(store, fields, "B")
      && ResumeArg(["A", "B"], fields, store, 1) == At(7)
      && FreshResumeArg(fields, store, "B") == First
  {
    var fields := EnvelopeFields("routingKey", "deliveryTag");
    var store: OffsetStore := map[Partition(fields, "A") := map[OffsetHeader := StoredLong(7)]];
    assert Partition(fields, "B")["routingKey"] != Partition(fields, "A")["routingKey"];
    assert !HasStored(store, fields, "B") && HasStored(store, fields, "A");
    assert LastStoredBefore(["A", "B"], fields, store, 2) == Some(0);
    assert StoredOffset(store[Partition(fields, "A")]) == StoredLong(7);
  }

  /** The argument a queue gets when `offsetValue` starts from null for every queue: its own stored
      entry, and "first" when it has no stored map or the entry is null. */
  function FreshResumeArg(fields: EnvelopeFields, store: OffsetStore, queue: string): OffsetArg
  {
    if HasStored(store, fields, queue) then
      match StoredOffset(store[Partition(fields, queue)])
      case StoredLong(v) => At(v)
      case _ => First
    else First
  }

  /** The `start` loop with `offsetValue` local to each iteration: every queue resumes from its own stored
      offset, and a queue with nothing stored is consumed from "first". */
  method StartResettingOffset(config: Config, fields: EnvelopeFields, store: OffsetStore) returns (s: Setup)
    ensures s.failure.None? <==> forall i :: 0 <= i < |config.queues| ==> !CastFails(config.queues, fields, store, i)
    ensures s.failure.None? ==> |s.calls| == 2 * |config.queues|
    ensures forall j :: 0 <= j < |s.calls| && j % 2 == 0 ==>
      s.calls[j] == BasicQos(config.prefetchCount, config.prefetchGlobal)
    ensures forall j :: 0 <= j < |s.calls| && j % 2 == 1 ==>
      j / 2 < |config.queues| && s.calls[j].BasicConsume? && s.calls[j].queue == config.queues[j / 2]
      && !s.calls[j].autoAck && OffsetHeader in s.calls[j].arguments
    // A queue without a stored map starts from "first", whatever the queues before it had stored.
    ensures forall j :: 0 <= j < |s.calls| && j % 2 == 1 && !HasStored(store, fields, config.queues[j / 2]) ==>
      s.calls[j].arguments == map[OffsetHeader := First]
    // A queue with a stored `Long` starts from exactly that offset; a null entry means "first".
    ensures forall j :: 0 <= j < |s.calls| && j % 2 == 1 && HasStored(store, fields, config.queues[j / 2]) ==>
      s.calls[j].arguments == map[OffsetHeader :=
        match StoredOffset(store[Partition(fields, config.queues[j / 2])])
        case StoredLong(v) => At(v)
        case _ => First]
    ensures s.failure.Some? ==>
      exists k :: 0 <= k < |config.queues| && CastFails(config.queues, fields, store, k)
        && (forall j :: 0 <= j < k ==> !CastFails(config.queues, fields, store, j))
        && |s.calls| == 2 * k
        && s.failure == Some(StoredOffsetNotLong(config.queues[k]))
  {
    var calls: seq<Call> := [];
    var i := 0;
    while i < |config.queues|
      invariant 0 <= i <= |config.queues|
      invariant |calls| == 2 * i
      invariant forall j :: 0 <= j < |calls| ==>
        calls[j] == if j % 2 == 0 then BasicQos(config.prefetchCount, config.prefetchGlobal)
                    else BasicConsume(config.queues[j / 2], false,
                                      map[OffsetHeader := FreshResumeArg(fields, store, config.queues[j / 2])])
      invariant forall j :: 0 <= j < i ==> !CastFails(config.queues, fields, store, j)
    {
      var queue := config.queues[i];
      var partition := map[fields.routingKey := queue];
      var offsetValue: Option<int> := None;
      if partition in store {
        match StoredOffset(store[partition])
        case StoredOther =>
          assert CastFails(config.queues, fields, store, i);
          return Setup(calls, Some(StoredOffsetNotLong(queue)));
        case StoredNull =>
          offsetValue := None;
        case StoredLong(v) =>
          offsetValue := Some(v);
      }
      var arg := if offsetValue.Some? then At(offsetValue.value) else First;
      calls := calls + [BasicQos(config.prefetchCount, config.prefetchGlobal),
                        BasicConsume(queue, false, map[OffsetHeader := arg])];
      i := i + 1;
    }
    return Setup(calls, None);
  }

  /** Where a queue has its own stored map, the corrected loop agrees with the code as written. */
  lemma FreshResumeAgreesOnStoredQueues(queues: seq<string>, fields: EnvelopeFields, store: OffsetStore, i: nat)
    requires i < |queues|
    requires HasStored(store, fields, queues[i])
    ensures FreshResumeArg(fields, store, queues[i]) == ResumeArg(queues, fields, store, i)
  {
  }

  /** What `poll` returns, and whether it slept for a second first. */
  datatype PollResult = PollResult(slept: bool, records: Option<seq<SourceRecord>>)

  /** `poll`, given what `drain` put into the batch and the boolean it returned. */
  function Poll(drained: seq<SourceRecord>, drainReported: bool): (r: PollResult)
    ensures r.records.None? <==> |drained| == 0
    ensures r.records.Some? ==> r.records.value == drained
    ensures r.slept <==> !drainReported
  {
    PollResult(!drainReported, if |drained| == 0 then None else Some(drained))
  }

  /** The records a poll hands to the host; null reads as none. */
  function Delivered(r: PollResult): seq<SourceRecord>
  {
    r.records.GetOr([])
  }

  /** A run of polls, each given the batch `drain` produced and what it reported. */
  function DeliveredAll(drains: seq<(seq<SourceRecord>, bool)>): seq<SourceRecord>
  {
    if |drains| == 0 then [] else Delivered(Poll(drains[0].0, drains[0].1)) + DeliveredAll(drains[1..])
  }

  function DrainedAll(drains: seq<(seq<SourceRecord>, bool)>): seq<SourceRecord>
  {
    if |drains| == 0 then [] else drains[0].0 + DrainedAll(drains[1..])
  }

  /** Over any run of polls the host receives exactly the drained records, in drain order. */
  lemma {:induction false} PollsDeliverEveryDrainedRecord(drains: seq<(seq<SourceRecord>, bool)>)
    ensures DeliveredAll(drains) == DrainedAll(drains)
    decreases |drains|
  {
    if |drains| > 0 {
      PollsDeliverEveryDrainedRecord(drains[1..]);
    }
  }

  /** `(Long) header.value()`: a `Long`, null, or a ClassCastException. */
  function CastToLong(v: HeaderValue): Result<Option<int>, Fault>
  {
    match v
    case Raw(Void) => Success(None)
    case Raw(LongInt(n)) => Success(Some(n))
    case _ => Failure(DeliveryTagNotLong)
  }

  /** The position of the last header with the given key. */
  function LastIndexOfKey(headers: seq<Header>, key: string): (r: Option<nat>)
    ensures r.Some? ==>
      r.value < |headers| && headers[r.value].key == key
      && forall j :: r.value < j < |headers| ==> headers[j].key != key
    ensures r.None? ==> forall j :: 0 <= j < |headers| ==> headers[j].key != key
  {
    if |headers| == 0 then None
    else if headers[|headers| - 1].key == key then Some(|headers| - 1)
    else LastIndexOfKey(headers[..|headers| - 1], key)
  }

  /** The `forEach` of `commitRecord`: every header with the key is cast, and the last one's value is kept. */
  function ScanDeliveryTag(headers: seq<Header>, key: string): (r: Result<Option<int>, Fault>)
    ensures r.Success? <==>
      forall i :: 0 <= i < |headers| && headers[i].key == key ==> CastToLong(headers[i].value).Success?
    ensures r.Success? ==>
      r.value == match LastIndexOfKey(headers, key)
                 case None => None
                 case Some(j) => CastToLong(headers[j].value).value
    ensures r.Failure? ==> r.error == DeliveryTagNotLong
  {
    if |headers| == 0 then Success(None)
    else
      var init := headers[..|headers| - 1];
      var last := headers[|headers| - 1];
      assert forall i :: 0 <= i < |init| ==> init[i] == headers[i];
      var tag :- ScanDeliveryTag(init, key);
      if last.key == key then CastToLong(last.value) else Success(tag)
  }

  /** `commitRecord` as written. `ackIoFails` stands for `basicAck` throwing IOException. */
  function CommitRecord(record: SourceRecord, tagKey: string, ackIoFails: bool): (r: Result<Call, Fault>)
    // On success exactly one ack is issued, non-multiple, for the value of the last header with the key.
    ensures r.Success? ==>
      r.value.BasicAck? && !r.value.multiple
      && LastIndexOfKey(record.headers, tagKey).Some?
      && record.headers[LastIndexOfKey(record.headers, tagKey).value].value == Raw(Amqp.LongInt(r.value.deliveryTag))
    ensures r.Success? <==>
      && !ackIoFails
      && (forall i :: 0 <= i < |record.headers| && record.headers[i].key == tagKey ==>
            CastToLong(record.headers[i].value).Success?)
      && LastIndexOfKey(record.headers, tagKey).Some?
      && record.headers[LastIndexOfKey(record.headers, tagKey).value].value.Raw?
      && record.headers[LastIndexOfKey(record.headers, tagKey).value].value.v.LongInt?
    // No header with the key: the tag stays null and unboxing it fails.
    ensures LastIndexOfKey(record.headers, tagKey).None? ==> r == Failure(NoDeliveryTag)
    // No match, or a null last match: unboxing the null tag fails, whether or not the ack would have.
    ensures ScanDeliveryTag(record.headers, tagKey) == Success(None) ==> r == Failure(NoDeliveryTag)
    // An I/O failure of the ack is never swallowed: once a non-null tag was found it surfaces as an interruption.
    ensures ackIoFails ==> r.Failure?
    ensures (ackIoFails && ScanDeliveryTag(record.headers, tagKey).Success?
             && ScanDeliveryTag(record.headers, tagKey).value.Some?)
      ==> r == Failure(AckInterrupted)
    // A rejected cast during the scan is the failure reported.
    ensures ScanDeliveryTag(record.headers, tagKey).Failure? ==> r == Failure(DeliveryTagNotLong)
  {
    var tag :- ScanDeliveryTag(record.headers, tagKey);
    if tag.None? then Failure(NoDeliveryTag)
    else if ackIoFails then Failure(AckInterrupted)
    else Success(BasicAck(tag.value, false))
  }

  /** `commitRecord` casting only the header it keeps: earlier headers with the same key cannot abort the ack. */
  function CommitRecordLastMatchOnly(record: SourceRecord, tagKey: string, ackIoFails: bool): (r: Result<Call, Fault>)
    ensures r.Success? ==>
      r.value.BasicAck? && !r.value.multiple
      && LastIndexOfKey(record.headers, tagKey).Some?
      && record.headers[LastIndexOfKey(record.headers, tagKey).value].value == Raw(Amqp.LongInt(r.value.deliveryTag))
    ensures r.Success? <==>
      && !ackIoFails
      && LastIndexOfKey(record.headers, tagKey).Some?
      && record.headers[LastIndexOfKey(record.headers, tagKey).value].value.Raw?
      && record.headers[LastIndexOfKey(record.headers, tagKey).value].value.v.LongInt?
    ensures ackIoFails ==> r.Failure?
    ensures (LastIndexOfKey(record.headers, tagKey).None?
             || record.headers[LastIndexOfKey(record.headers, tagKey).value].value == Raw(Amqp.Void))
      ==> r == Failure(NoDeliveryTag)
    ensures (LastIndexOfKey(record.headers, tagKey).Some?
             && CastToLong(record.headers[LastIndexOfKey(record.headers, tagKey).value].value).Failure?)
      ==> r == Failure(DeliveryTagNotLong)
    ensures (ackIoFails && LastIndexOfKey(record.headers, tagKey).Some?
             && record.headers[LastIndexOfKey(record.headers, tagKey).value].value.Raw?
             && record.headers[LastIndexOfKey(record.headers, tagKey).value].value.v.LongInt?)
      ==> r == Failure(AckInterrupted)
  {
    match LastIndexOfKey(record.headers, tagKey)
    case None => Failure(NoDeliveryTag)
    case Some(j) =>
      var tag :- CastToLong(record.headers[j].value);
      if tag.None? then Failure(NoDeliveryTag)
      else if ackIoFails then Failure(AckInterrupted)
      else Success(BasicAck(tag.value, false))
  }

  /** Wherever the code as written acks, the corrected lookup acks the same tag. */
  lemma LastMatchOnlyAgreesWhenCommitSucceeds(record: SourceRecord, tagKey: string, ackIoFails: bool)
    requires CommitRecord(record, tagKey, ackIoFails).Success?
    ensures CommitRecordLastMatchOnly(record, tagKey, ackIoFails) == CommitRecord(record, tagKey, ackIoFails)
  {
  }
}
