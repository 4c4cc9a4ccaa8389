/** Connector settings and field-name constants the bridge reads but does not define here. */
module ConnectorConfig {

  /** The parts of `RabbitMQSourceConnectorConfig` the core consumes. `prefetchCount` is a Java `int`. */
  datatype Config = Config(kafkaTopic: string, queues: seq<string>, prefetchCount: int, prefetchGlobal: bool)

  /** `EnvelopeSchema.FIELD_ROUTINGKEY` and `EnvelopeSchema.FIELD_DELIVERYTAG`, whose values are not part of this model. */
  datatype EnvelopeFields = EnvelopeFields(routingKey: string, deliveryTag: string)
}
