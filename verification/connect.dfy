/** The Kafka Connect values the bridge produces: headers and source records. */
module Connect {
  import Amqp
  import ZystonEventSchema

  /** A Connect header value: a coerced string, a coerced list of strings, or an object passed through. */
  datatype HeaderValue = Raw(v: Amqp.Value) | Str(s: string) | StrList(items: seq<string>)

  datatype Header = Header(key: string, value: HeaderValue)

  /** A `SourceRecord` with a null Kafka partition and a string key. */
  datatype SourceRecord = SourceRecord(
    sourcePartition: map<string, string>,
    sourceOffset: map<string, Amqp.Value>,
    topic: string,
    key: string,
    value: ZystonEventSchema.Event,
    timestamp: int,
    headers: seq<Header>)
}
