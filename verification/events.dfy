/**
 * The two records of the events API: the request body a client posts
 * (`IngestEventRequest`) and the normalised event that flows through the
 * pipeline (`UserEvent`). A `DateTimeOffset` is an instant in UTC ticks and a
 * `JsonElement` is an opaque document.
 */
module Events {
  import opened Wrappers

  datatype Timestamp = Timestamp(utcTicks: int)

  datatype JsonElement = JsonElement(rawText: string)

  /** The bound request body; a property the client left out is None. */
  datatype IngestEventRequest = IngestEventRequest(
    userId: Option<string>,
    eventType: Option<string>,
    timestamp: Option<Timestamp>,
    data: Option<JsonElement>)

  datatype UserEvent = UserEvent(
    userId: string,
    eventType: string,
    timestamp: Timestamp,
    data: Option<JsonElement>)
}
