/** What the RabbitMQ client hands to a delivery callback: envelope, properties and header values. */
module Amqp {
  import opened Wrappers

  /** An AMQP header value, distinguished only as far as the bridge's `instanceof` tests and casts look. */
  datatype Value =
    | Void                          // a null value
    | LongString(text: string)      // com.rabbitmq.client.LongString; `text` is its toString()
    | LongInt(n: int)               // java.lang.Long
    | FieldArray(items: seq<Value>) // a java.util.List
    | Other(description: string)    // any other object (Integer, Boolean, Date, nested table, ...)

  /** Keys of a Java map are distinct. */
  predicate DistinctKeys<V>(entries: seq<(string, V)>)
  {
    forall i, j :: 0 <= i < j < |entries| ==> entries[i].0 != entries[j].0
  }

  /** A non-null AMQP header table, as its entries in the map's iteration order. */
  type HeaderTable = t: seq<(string, Value)> | DistinctKeys(t) witness []

  /** `headers.get(key)`: the value stored under `key`, `Void` when there is none (both read as null). */
  function Lookup(headers: HeaderTable, key: string): (r: Value)
    ensures (exists i :: 0 <= i < |headers| && headers[i].0 == key) || r == Void
    ensures forall i :: 0 <= i < |headers| && headers[i].0 == key ==> r == headers[i].1
    decreases |headers|
  {
    if |headers| == 0 then Void
    else if headers[0].0 == key then headers[0].1
    else Lookup(headers[1..], key)
  }

  /** The broker's identity for one delivery. `deliveryTag` is a Java `long`. */
  datatype Envelope = Envelope(routingKey: string, deliveryTag: int)

  /** Producer-supplied metadata: `timestamp` in epoch milliseconds, `headers` null when absent. */
  datatype Properties = Properties(timestamp: Option<int>, headers: Option<HeaderTable>)
}
