/** The exceptions the bridge can raise, one constructor per throw site. */
module Faults {

  datatype Fault =
    /** `getHeaders().get(...)` on a message whose AMQP header table is null (NullPointerException). */
    | NullHeaders
    /** A list-valued AMQP header holds an element that is not a `LongString`
        (ClassCastException) or is null (NullPointerException). */
    | ListElementNotLongString(key: string)
    /** Jackson could not parse the message body (JsonProcessingException, rethrown as RuntimeException). */
    | MalformedBody
    /** `zystonEvent.get(name)` returned null, so `asText()` threw NullPointerException. */
    | MissingEventField(name: string)
    /** A stored offset for `queue` is neither null nor a `Long` (ClassCastException in `start`). */
    | StoredOffsetNotLong(queue: string)
    /** A header with the delivery-tag key holds a value that is not a `Long` (ClassCastException in `commitRecord`). */
    | DeliveryTagNotLong
    /** No header supplied a non-null delivery tag, so unboxing it for `basicAck` threw NullPointerException. */
    | NoDeliveryTag
    /** `basicAck` failed with an IOException, surfaced as InterruptedException. */
    | AckInterrupted
}
