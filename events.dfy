/**
 * The message envelope shared by both directions of the bridge: a topic, the raw
 * payload, a quality-of-service level and the retained flag.  All fields are final
 * and nothing validates them, so it is a plain value.
 */
module EventMessages {
  import Utf8

  /** `EventMessage(topic, message, qos, retained)`; the getters are the destructors. */
  datatype EventMessage = EventMessage(topic: string, message: seq<Utf8.byte>, qos: int, retained: bool)

  /** The two-argument constructor: quality of service 0, not retained. */
  function Envelope(topic: string, message: seq<Utf8.byte>): (m: EventMessage)
    ensures m.topic == topic && m.message == message
    ensures m.qos == 0 && !m.retained
  {
    EventMessage(topic, message, 0, false)
  }
}
