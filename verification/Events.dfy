/** The event record of logcenter/types.go and the dynamically typed values it carries. */
module Events {
  import opened Bytes

  /** `type Fields map[string]any`; a nil map is not an empty one. */
  datatype Fields = NilFields | Fields(entries: map<Text, Value>)

  /**
    * A Go `any`, split by the dynamic types the passes distinguish: untyped nil, string,
    * `map[string]any`, `Fields`, `[]any`, `[]string`, `[]Change`; every other type is `Other`
    * (booleans and integers are kept apart because the library itself writes them).
    */
  datatype Value =
    | Nil
    | Str(text: Text)
    | Boolean(truth: bool)
    | Number(number: int)
    | Other(tag: int)
    | RawMap(raw: Fields)
    | Object(fields: Fields)
    | List(items: seq<Value>)
    | Texts(texts: seq<Text>)
    | Changes(changes: seq<Change>)

  datatype Change = Change(field: Text, oldValue: Value, newValue: Value)

  datatype Event = Event(
    eventId: Text,
    idempotencyKey: Text,
    eventType: Text,
    occurredAt: Text,
    environment: Text,
    service: Text,
    serviceVersion: Text,
    classification: Text,
    retentionHint: Text,
    requestId: Text,
    traceId: Text,
    spanId: Text,
    parentSpanId: Text,
    userId: Text,
    tenantId: Text,
    operation: Text,
    status: Text,
    httpMethod: Text,
    path: Text,
    routeTemplate: Text,
    kind: Text,
    name: Text,
    level: Text,
    message: Text,
    errorCode: Text,
    errorMessage: Text,
    errorType: Text,
    severity: Text,
    fingerprint: Text,
    stackTrace: Text,
    httpStatus: Option<int>,
    durationMs: Option<int>,
    startedAt: Text,
    finishedAt: Text,
    actorType: Text,
    actorId: Text,
    action: Text,
    entityType: Text,
    entityId: Text,
    fieldName: Text,
    changes: Value,
    oldValue: Value,
    newValue: Value,
    reason: Text,
    metadata: Fields,
    data: Fields)

  const REQUEST_STARTED := Ascii("request_started")
  const REQUEST_FINISHED := Ascii("request_finished")
  const SPAN := Ascii("span")
  const LOG_EVENT := Ascii("log_event")
  const ERROR_EVENT := Ascii("error_event")
  const AUDIT_EVENT := Ascii("audit_event")
  const EXTERNAL_PROVIDER_EXCHANGE := Ascii("external_provider_exchange")
  const FISCAL_PROVIDER_EXCHANGE := Ascii("fiscal_provider_exchange")

  const LEVEL_DEBUG := Ascii("debug")
  const LEVEL_INFO := Ascii("info")
  const LEVEL_WARN := Ascii("warn")
  const LEVEL_ERROR := Ascii("error")
  const LEVEL_FATAL := Ascii("fatal")

  /** The IDs of a batch, as a set. */
  function Ids(events: seq<Event>): set<Text> {
    set e | e in events :: e.eventId
  }
}
