/** From a caller's event to one the pipeline accepts: logcenter/validation.go and `prepareEvent`. */
module Admission {
  import opened Bytes
  import opened Events
  import opened Utf8
  import Redaction
  import Limits
  import TamperChain

  // ----- Validation

  /** What validation consults: `strings.TrimSpace`, RFC 3339 parsing and JSON encodability. */
  datatype Rules = Rules(trim: Text -> Text, isTime: Text -> bool, encodes: Value -> bool)

  ghost predicate Trims(rules: Rules) {
    forall t :: rules.trim(t) == TrimSpace(t)
  }

  datatype Invalid =
    | IdMismatch
    | Required(field: string)
    | NotTime(field: string)
    | NotAllowed(field: string)
    | NotJson(field: string)
    | NegativeDuration
    | Unsupported

  const STATUSES := {Ascii("started"), Ascii("success"), Ascii("failed"), Ascii("timeout"), Ascii("canceled"),
                     Ascii("ignored"), Ascii("retrying")}
  const CLASSIFICATIONS := {Ascii("operational"), Ascii("security"), Ascii("audit"), Ascii("critical"),
                            Ascii("privacy")}
  const RETENTION_HINTS := {Ascii("default"), Ascii("short"), Ascii("standard"), Ascii("long"), Ascii("audit"),
                            Ascii("privacy")}
  const LEVELS := {LEVEL_DEBUG, LEVEL_INFO, LEVEL_WARN, LEVEL_ERROR, LEVEL_FATAL}

  /** The first of two checks that fails. */
  function Then(first: Option<Invalid>, second: Option<Invalid>): Option<Invalid> {
    if first.Some? then first else second
  }

  function NonBlank(rules: Rules, field: string, t: Text): Option<Invalid> {
    if rules.trim(t) == [] then Some(Required(field)) else None
  }

  function Time(rules: Rules, field: string, t: Text): Option<Invalid> {
    if rules.trim(t) == [] then Some(Required(field)) else if rules.isTime(t) then None else Some(NotTime(field))
  }

  /** Blank, or one of the names. */
  function OptionalName(rules: Rules, field: string, t: Text, allowed: set<Text>): Option<Invalid> {
    if rules.trim(t) == [] || rules.trim(t) in allowed then None else Some(NotAllowed(field))
  }

  function Name(rules: Rules, field: string, t: Text, allowed: set<Text>): Option<Invalid> {
    if rules.trim(t) == [] then Some(Required(field)) else if t in allowed then None else Some(NotAllowed(field))
  }

  function Json(rules: Rules, field: string, v: Value): Option<Invalid> {
    if v.Nil? || rules.encodes(v) then None else Some(NotJson(field))
  }

  function Duration(e: Event): Option<Invalid> {
    if e.durationMs.None? then Some(Required("duration_ms"))
    else if e.durationMs.value < 0 then Some(NegativeDuration)
    else None
  }

  function ValidateChanges(rules: Rules, v: Value): Option<Invalid> {
    match v
    case Nil => None
    case Changes(changes) => if changes == [] then Some(NotAllowed("changes")) else Json(rules, "changes", v)
    case List(items) => if items == [] then Some(NotAllowed("changes")) else Json(rules, "changes", v)
    case RawMap(f) => if Limits.Entries(f) == map[] then Some(NotAllowed("changes")) else Json(rules, "changes", v)
    case Object(f) => if Limits.Entries(f) == map[] then Some(NotAllowed("changes")) else Json(rules, "changes", v)
    case _ => Some(NotAllowed("changes"))
  }

  /** The checks every event passes first. */
  function Envelope(rules: Rules, e: Event): Option<Invalid> {
    if rules.trim(e.idempotencyKey) != [] && rules.trim(e.eventId) != rules.trim(e.idempotencyKey) then Some(IdMismatch)
    else
      Then(NonBlank(rules, "event_id", e.eventId),
      Then(NonBlank(rules, "event_type", e.eventType),
      Then(Time(rules, "occurred_at", e.occurredAt),
      Then(NonBlank(rules, "environment", e.environment),
      Then(NonBlank(rules, "service", e.service),
      Then(OptionalName(rules, "classification", e.classification, CLASSIFICATIONS),
      Then(OptionalName(rules, "retention_hint", e.retentionHint, RETENTION_HINTS),
      Then(Json(rules, "metadata", Object(e.metadata)),
           Json(rules, "data", Object(e.data))))))))))
  }

  /** The checks of the event's type. */
  function ByType(rules: Rules, e: Event): Option<Invalid> {
    if e.eventType == REQUEST_STARTED then
      Then(NonBlank(rules, "request_id", e.requestId),
      Then(NonBlank(rules, "trace_id", e.traceId),
      Then(NonBlank(rules, "operation", e.operation),
           Time(rules, "started_at", e.startedAt))))
    else if e.eventType == REQUEST_FINISHED then
      Then(NonBlank(rules, "request_id", e.requestId),
      Then(NonBlank(rules, "trace_id", e.traceId),
      Then(Name(rules, "status", e.status, STATUSES),
      Then(Time(rules, "finished_at", e.finishedAt),
           Duration(e)))))
    else if e.eventType == SPAN then
      Then(NonBlank(rules, "trace_id", e.traceId),
      Then(NonBlank(rules, "span_id", e.spanId),
      Then(NonBlank(rules, "name", e.name),
      Then(Time(rules, "started_at", e.startedAt),
      Then(Time(rules, "finished_at", e.finishedAt),
      Then(Duration(e),
           Name(rules, "status", e.status, STATUSES)))))))
    else if e.eventType == LOG_EVENT then
      Then(Name(rules, "level", e.level, LEVELS),
           NonBlank(rules, "message", e.message))
    else if e.eventType == ERROR_EVENT then
      Then(if rules.trim(e.errorCode) == [] && rules.trim(e.errorMessage) == [] then Some(Required("error_code"))
           else None,
           NonBlank(rules, "severity", e.severity))
    else if e.eventType == AUDIT_EVENT then
      Then(NonBlank(rules, "action", e.action),
      Then(NonBlank(rules, "entity_type", e.entityType),
      Then(NonBlank(rules, "entity_id", e.entityId),
      Then(if e.changes.Nil? && e.oldValue.Nil? && e.newValue.Nil? then Some(Required("changes")) else None,
      Then(ValidateChanges(rules, e.changes),
      Then(Json(rules, "old_value", e.oldValue),
           Json(rules, "new_value", e.newValue)))))))
    else if e.eventType == EXTERNAL_PROVIDER_EXCHANGE || e.eventType == FISCAL_PROVIDER_EXCHANGE then
      Then(NonBlank(rules, "operation", e.operation),
           if Limits.Entries(e.data) == map[] then Some(Required("data")) else None)
    else Some(Unsupported)
  }

  /** `ValidateEvent`; None is no error. */
  function ValidateEvent(rules: Rules, e: Event): Option<Invalid> {
    Then(Envelope(rules, e), ByType(rules, e))
  }

  // ----- What validation accepts

  predicate Filled(rules: Rules, t: Text) {
    rules.trim(t) != []
  }

  predicate Timed(rules: Rules, t: Text) {
    rules.trim(t) != [] && rules.isTime(t)
  }

  predicate Encodable(rules: Rules, v: Value) {
    v.Nil? || rules.encodes(v)
  }

  ghost predicate EnvelopeOk(rules: Rules, e: Event) {
    && (Filled(rules, e.idempotencyKey) ==> rules.trim(e.eventId) == rules.trim(e.idempotencyKey))
    && Filled(rules, e.eventId) && Filled(rules, e.eventType) && Timed(rules, e.occurredAt)
    && Filled(rules, e.environment) && Filled(rules, e.service)
    && (Filled(rules, e.classification) ==> rules.trim(e.classification) in CLASSIFICATIONS)
    && (Filled(rules, e.retentionHint) ==> rules.trim(e.retentionHint) in RETENTION_HINTS)
    && rules.encodes(Object(e.metadata)) && rules.encodes(Object(e.data))
  }

  /** Finished work: it took some time and ended in a known way. */
  ghost predicate Ended(rules: Rules, e: Event) {
    && Timed(rules, e.finishedAt)
    && e.durationMs.Some? && e.durationMs.value >= 0
    && Filled(rules, e.status) && e.status in STATUSES
  }

  /** A recorded change: an object or a list with something in it. */
  ghost predicate SomeChanges(v: Value) {
    match v
    case Changes(changes) => changes != []
    case List(items) => items != []
    case RawMap(f) => f.Fields? && f.entries != map[]
    case Object(f) => f.Fields? && f.entries != map[]
    case _ => false
  }

  ghost predicate TypeOk(rules: Rules, e: Event) {
    || (e.eventType == REQUEST_STARTED && Filled(rules, e.requestId) && Filled(rules, e.traceId)
        && Filled(rules, e.operation) && Timed(rules, e.startedAt))
    || (e.eventType == REQUEST_FINISHED && Filled(rules, e.requestId) && Filled(rules, e.traceId) && Ended(rules, e))
    || (e.eventType == SPAN && Filled(rules, e.traceId) && Filled(rules, e.spanId) && Filled(rules, e.name)
        && Timed(rules, e.startedAt) && Ended(rules, e))
    || (e.eventType == LOG_EVENT && Filled(rules, e.level) && e.level in LEVELS && Filled(rules, e.message))
    || (e.eventType == ERROR_EVENT && (Filled(rules, e.errorCode) || Filled(rules, e.errorMessage))
        && Filled(rules, e.severity))
    || (e.eventType == AUDIT_EVENT && Filled(rules, e.action) && Filled(rules, e.entityType)
        && Filled(rules, e.entityId)
        && !(e.changes.Nil? && e.oldValue.Nil? && e.newValue.Nil?)
        && (e.changes.Nil? || (SomeChanges(e.changes) && rules.encodes(e.changes)))
        && Encodable(rules, e.oldValue) && Encodable(rules, e.newValue))
    || ((e.eventType == EXTERNAL_PROVIDER_EXCHANGE || e.eventType == FISCAL_PROVIDER_EXCHANGE)
        && Filled(rules, e.operation) && e.data.Fields? && e.data.entries != map[])
  }

  lemma {:induction false} TypesDiffer()
    ensures |REQUEST_STARTED| == 15 && |REQUEST_FINISHED| == 16 && |SPAN| == 4 && |LOG_EVENT| == 9
    ensures |ERROR_EVENT| == 11 && |AUDIT_EVENT| == 11 && ERROR_EVENT != AUDIT_EVENT
    ensures |EXTERNAL_PROVIDER_EXCHANGE| == 26 && |FISCAL_PROVIDER_EXCHANGE| == 24
  {
    assert ERROR_EVENT[0] == 101 && AUDIT_EVENT[0] == 97;
  }

  lemma {:induction false} EnvelopeIff(rules: Rules, e: Event)
    ensures Envelope(rules, e).None? <==> EnvelopeOk(rules, e)
  {}

  lemma {:induction false} ByTypeIff(rules: Rules, e: Event)
    ensures ByType(rules, e).None? <==> TypeOk(rules, e)
  {
    TypesDiffer();
    ChangesIff(rules, e.changes);
  }

  lemma {:induction false} ChangesIff(rules: Rules, v: Value)
    ensures ValidateChanges(rules, v).None? <==> v.Nil? || (SomeChanges(v) && rules.encodes(v))
  {}

  /** The ordered checks accept an event exactly when its envelope and the requirements of its type hold. */
  lemma {:induction false} ValidIff(rules: Rules, e: Event)
    ensures ValidateEvent(rules, e).None? <==> EnvelopeOk(rules, e) && TypeOk(rules, e)
  {
    EnvelopeIff(rules, e);
    ByTypeIff(rules, e);
  }

  // ----- What an error names

  /** The text of the event that an error means by its name for it. */
  function NamedText(e: Event, field: string): Option<Text> {
    if field == "event_id" then Some(e.eventId)
    else if field == "event_type" then Some(e.eventType)
    else if field == "occurred_at" then Some(e.occurredAt)
    else if field == "environment" then Some(e.environment)
    else if field == "service" then Some(e.service)
    else if field == "classification" then Some(e.classification)
    else if field == "retention_hint" then Some(e.retentionHint)
    else if field == "request_id" then Some(e.requestId)
    else if field == "trace_id" then Some(e.traceId)
    else if field == "span_id" then Some(e.spanId)
    else if field == "operation" then Some(e.operation)
    else if field == "started_at" then Some(e.startedAt)
    else if field == "finished_at" then Some(e.finishedAt)
    else if field == "status" then Some(e.status)
    else if field == "name" then Some(e.name)
    else if field == "level" then Some(e.level)
    else if field == "message" then Some(e.message)
    else if field == "severity" then Some(e.severity)
    else if field == "action" then Some(e.action)
    else if field == "entity_type" then Some(e.entityType)
    else if field == "entity_id" then Some(e.entityId)
    else None
  }

  /** An error about a text is true of the text it names. */
  ghost predicate IsTrue(rules: Rules, e: Event, cause: Invalid) {
    match cause
    case IdMismatch => rules.trim(e.idempotencyKey) != [] && rules.trim(e.eventId) != rules.trim(e.idempotencyKey)
    case Required(f) => NamedText(e, f).Some? ==> rules.trim(NamedText(e, f).value) == []
    case NotTime(f) =>
      NamedText(e, f).Some? && rules.trim(NamedText(e, f).value) != [] && !rules.isTime(NamedText(e, f).value)
    case NegativeDuration => e.durationMs.Some? && e.durationMs.value < 0
    case _ => true
  }

  ghost predicate TrueIfAny(rules: Rules, e: Event, found: Option<Invalid>) {
    found.Some? ==> IsTrue(rules, e, found.value)
  }

  lemma {:induction false} EnvelopeTellsTrue(rules: Rules, e: Event)
    ensures TrueIfAny(rules, e, Envelope(rules, e))
  {}

  predicate IsWork(e: Event) {
    e.eventType == REQUEST_STARTED || e.eventType == REQUEST_FINISHED || e.eventType == SPAN
  }

  lemma {:induction false} WorkTellsTrue(rules: Rules, e: Event)
    requires IsWork(e)
    ensures TrueIfAny(rules, e, ByType(rules, e))
  {}

  lemma {:induction false} RecordTellsTrue(rules: Rules, e: Event)
    requires !IsWork(e)
    ensures TrueIfAny(rules, e, ByType(rules, e))
  {}

  lemma {:induction false} ByTypeTellsTrue(rules: Rules, e: Event)
    ensures TrueIfAny(rules, e, ByType(rules, e))
  {
    if IsWork(e) {
      WorkTellsTrue(rules, e);
    } else {
      RecordTellsTrue(rules, e);
    }
  }

  /** The error validation reports is true of the event and of the field it names. */
  lemma {:induction false} ErrorsTellTrue(rules: Rules, e: Event)
    ensures TrueIfAny(rules, e, ValidateEvent(rules, e))
  {
    EnvelopeTellsTrue(rules, e);
    ByTypeTellsTrue(rules, e);
  }

  // ----- Defaults

  datatype Defaults = Defaults(environment: Text, service: Text, version: Text)

  /** The ID an event travels under: the caller's, else the trimmed idempotency key, else a fresh one. */
  function IdOf(rules: Rules, e: Event, freshId: Text): Text {
    if e.eventId != [] then e.eventId
    else if rules.trim(e.idempotencyKey) != [] then rules.trim(e.idempotencyKey)
    else freshId
  }

  /** `withDefaults`: one field after another. */
  method WithDefaults(rules: Rules, d: Defaults, e: Event, freshId: Text, now: Text) returns (r: Event)
    ensures r == Defaulted(rules, d, e, freshId, now)
  {
    r := e;
    r := r.(idempotencyKey := rules.trim(r.idempotencyKey));
    if r.eventId == [] && r.idempotencyKey != [] {
      r := r.(eventId := r.idempotencyKey);
    }
    if r.eventId == [] {
      r := r.(eventId := freshId);
    }
    if r.idempotencyKey == [] {
      r := r.(idempotencyKey := r.eventId);
    }
    if r.occurredAt == [] {
      r := r.(occurredAt := now);
    }
    if r.environment == [] {
      r := r.(environment := d.environment);
    }
    if r.service == [] {
      r := r.(service := d.service);
    }
    if r.serviceVersion == [] {
      r := r.(serviceVersion := d.version);
    }
  }

  function Or(t: Text, default: Text): Text {
    if t == [] then default else t
  }

  function Defaulted(rules: Rules, d: Defaults, e: Event, freshId: Text, now: Text): Event {
    var id := IdOf(rules, e, freshId);
    e.(eventId := id,
       idempotencyKey := Or(rules.trim(e.idempotencyKey), id),
       occurredAt := Or(e.occurredAt, now),
       environment := Or(e.environment, d.environment),
       service := Or(e.service, d.service),
       serviceVersion := Or(e.serviceVersion, d.version))
  }

  // ----- Preparation

  datatype Preparer = Preparer(
    rules: Rules,
    defaults: Defaults,
    redactor: Redaction.Redactor,
    limiter: Limits.Limiter,
    crypto: TamperChain.Crypto,
    chain: Option<TamperChain.Config>)

  datatype PrepareError = TooLarge | TamperFailed(cause: TamperChain.TamperError) | Rejected(reason: Invalid)

  function Validated(p: Preparer, e: Event): Result<Event, PrepareError> {
    match ValidateEvent(p.rules, e)
    case None => Ok(e)
    case Some(cause) => Err(Rejected(cause))
  }

  /** What follows the limiter: the size check, the stamp, the validation -- in that order. */
  function Finished(p: Preparer, s: TamperChain.State, limited: Event, saveWorks: bool)
    : (Result<Event, PrepareError>, TamperChain.State)
  {
    if !Limits.EventSizeOk(p.limiter, limited) then (Err(TooLarge), s)
    else if p.chain.None? then (Validated(p, limited), s)
    else
      var (s1, applied) := TamperChain.Apply(p.crypto, p.chain.value, s, limited, saveWorks);
      if applied.error.Some? then (Err(TamperFailed(applied.error.value)), s1) else (Validated(p, applied.event), s1)
  }

  ghost predicate CouldLimit(p: Preparer, raw: Event, freshId: Text, now: Text, limited: Event) {
    var redacted := Redaction.RedactEvent(p.redactor, Defaulted(p.rules, p.defaults, raw, freshId, now));
    Limits.EventLimited(p.limiter, redacted, limited)
  }

  /** `prepareEvent`. */
  method PrepareEvent(p: Preparer, s: TamperChain.State, raw: Event, freshId: Text, now: Text, saveWorks: bool)
    returns (r: Result<Event, PrepareError>, after: TamperChain.State)
    requires Limits.Cuts(p.limiter)
    ensures CouldPrepare(p, s, raw, freshId, now, saveWorks, r, after)
  {
    var e := WithDefaults(p.rules, p.defaults, raw, freshId, now);
    e := Redaction.RedactEvent(p.redactor, e);
    var limited, ok := Limits.LimitEvent(p.limiter, e);
    assert CouldLimit(p, raw, freshId, now, limited);
    if !ok {
      return Err(TooLarge), s;
    }
    if p.chain.None? {
      return Validated(p, limited), s;
    }
    var (s1, applied) := TamperChain.Apply(p.crypto, p.chain.value, s, limited, saveWorks);
    if applied.error.Some? {
      return Err(TamperFailed(applied.error.value)), s1;
    }
    return Validated(p, applied.event), s1;
  }

  /** A stamp changes the metadata and nothing else. */
  lemma {:induction false} StampsOnlyMetadata(
    crypto: TamperChain.Crypto, config: TamperChain.Config, s: TamperChain.State, e: Event, saveWorks: bool)
    ensures var stamped := TamperChain.Apply(crypto, config, s, e, saveWorks).1.event;
            stamped == e.(metadata := stamped.metadata)
  {}

  /** Redaction and limits leave the ID, the type and the level alone, and truncate the idempotency key. */
  lemma {:induction false} LimitsKeepEnvelope(p: Preparer, raw: Event, freshId: Text, now: Text, limited: Event)
    ensures var id := IdOf(p.rules, raw, freshId);
            CouldLimit(p, raw, freshId, now, limited) ==>
            && limited.eventId == id
            && limited.idempotencyKey == p.limiter.cut(Or(p.rules.trim(raw.idempotencyKey), id))
            && limited.eventType == raw.eventType && limited.level == raw.level
  {}

  lemma {:induction false} ValidatedEnvelope(rules: Rules, e: Event)
    requires ValidateEvent(rules, e).None?
    ensures rules.trim(e.eventId) != []
    ensures rules.trim(e.idempotencyKey) != [] ==> rules.trim(e.idempotencyKey) == rules.trim(e.eventId)
  {
    assert Envelope(rules, e).None?;
  }

  lemma {:induction false} FinishedIsLimited(p: Preparer, s: TamperChain.State, limited: Event, saveWorks: bool)
    ensures var r := Finished(p, s, limited, saveWorks).0;
            r.Ok? ==>
              && ValidateEvent(p.rules, r.value).None?
              && Limits.EventSizeOk(p.limiter, limited)
              && r.value == limited.(metadata := r.value.metadata)
  {
    if p.chain.Some? {
      StampsOnlyMetadata(p.crypto, p.chain.value, s, limited, saveWorks);
    }
  }

  /**
    * What admission guarantees: a prepared event passes validation; its ID is the caller's, else the trimmed
    * idempotency key, else the fresh one, untouched by redaction, limits and stamp; the ID is not blank, and
    * it agrees with the idempotency key, up to surrounding space, whenever that is not blank.
    */
  lemma {:induction false} PreparedIsAdmitted(
    p: Preparer, s: TamperChain.State, raw: Event, freshId: Text, now: Text, saveWorks: bool, limited: Event)
    ensures var r := Finished(p, s, limited, saveWorks).0;
            CouldLimit(p, raw, freshId, now, limited) && r.Ok? ==>
              var e := r.value;
              && ValidateEvent(p.rules, e).None?
              && e.eventId == (if raw.eventId != [] then raw.eventId
                               else if p.rules.trim(raw.idempotencyKey) != [] then p.rules.trim(raw.idempotencyKey)
                               else freshId)
              && p.rules.trim(e.eventId) != []
              && (p.rules.trim(e.idempotencyKey) != [] ==> p.rules.trim(e.idempotencyKey) == p.rules.trim(e.eventId))
              && e.eventType == raw.eventType && e.level == raw.level
              && e == limited.(metadata := e.metadata)
              && (p.limiter.maxEvent > 0 ==>
                    && p.limiter.encodedEventSize(limited).Some?
                    && p.limiter.encodedEventSize(limited).value <= p.limiter.maxEvent)
  {
    LimitsKeepEnvelope(p, raw, freshId, now, limited);
    FinishedIsLimited(p, s, limited, saveWorks);
    var r := Finished(p, s, limited, saveWorks).0;
    if r.Ok? {
      ValidatedEnvelope(p.rules, r.value);
    }
  }

  /**
    * The rest of a prepared event, field by field: what the caller left empty comes from the configuration, the
    * free texts are scrubbed and then truncated, and nothing else of the envelope is touched.
    */
  lemma {:induction false} PreparedByParts(
    p: Preparer, s: TamperChain.State, raw: Event, freshId: Text, now: Text, saveWorks: bool, limited: Event)
    requires StandardTexts(p) && CouldLimit(p, raw, freshId, now, limited)
    requires Finished(p, s, limited, saveWorks).0.Ok?
    ensures var e, max := Finished(p, s, limited, saveWorks).0.value, p.limiter.maxString;
            && e.environment == (if raw.environment != [] then raw.environment else p.defaults.environment)
            && e.service == (if raw.service != [] then raw.service else p.defaults.service)
            && e.serviceVersion
               == Truncate(if raw.serviceVersion != [] then raw.serviceVersion else p.defaults.version, max)
            && e.occurredAt == (if raw.occurredAt != [] then raw.occurredAt else now)
            && e.message == Truncate(p.redactor.scrub(raw.message), max)
            && e.errorMessage == Truncate(p.redactor.scrub(raw.errorMessage), max)
            && e.stackTrace == Truncate(p.redactor.scrub(raw.stackTrace), max)
            && e.reason == Truncate(p.redactor.scrub(raw.reason), max)
            && e.requestId == raw.requestId && e.traceId == raw.traceId && e.spanId == raw.spanId
            && e.parentSpanId == raw.parentSpanId && e.status == raw.status && e.level == raw.level
            && e.eventType == raw.eventType && e.httpStatus == raw.httpStatus && e.durationMs == raw.durationMs
            && e.startedAt == raw.startedAt && e.finishedAt == raw.finishedAt
            && e.operation == Truncate(raw.operation, max) && e.name == Truncate(raw.name, max)
            && e.action == Truncate(raw.action, max) && e.entityType == Truncate(raw.entityType, max)
            && e.entityId == Truncate(raw.entityId, max) && e.classification == Truncate(raw.classification, max)
            && e.userId == Truncate(raw.userId, max) && e.tenantId == Truncate(raw.tenantId, max)
            && e.path == Truncate(raw.path, max) && e.errorCode == Truncate(raw.errorCode, max)
            && e.severity == Truncate(raw.severity, max) && e.actorId == Truncate(raw.actorId, max)
  {
    FinishedIsLimited(p, s, limited, saveWorks);
    Limits.EventByParts(p.limiter,
                        Redaction.RedactEvent(p.redactor, Defaulted(p.rules, p.defaults, raw, freshId, now)), limited);
  }

  /**
    * Where preparation can fail and what it has done to the chain by then: an event over its size never reaches
    * the chain; one that validation rejects has been stamped all the same, so the delivered sequence numbers
    * have a gap; and a failed save rejects an event that is already in the chain.
    */
  lemma {:induction false} FailuresAndTheChain(p: Preparer, s: TamperChain.State, limited: Event, saveWorks: bool)
    ensures var (r, s1) := Finished(p, s, limited, saveWorks);
            && (r == Err(TooLarge) <==>
                  p.limiter.maxEvent > 0 &&
                  (p.limiter.encodedEventSize(limited).None?
                   || p.limiter.encodedEventSize(limited).value > p.limiter.maxEvent))
            && (r == Err(TooLarge) || p.chain.None? ==> s1 == s)
            && (r != Err(TooLarge) && p.chain.Some? ==>
                  var (s2, applied) := TamperChain.Apply(p.crypto, p.chain.value, s, limited, saveWorks);
                  && s1 == s2
                  && (applied.error.Some? ==> r == Err(TamperFailed(applied.error.value)))
                  && (applied.error.None? && ValidateEvent(p.rules, applied.event).None? ==> r == Ok(applied.event))
                  && (applied.error.None? && applied.mark.Some? ==>
                        s1.memory.sequence == (s.memory.sequence + 1) % 0x1_0000_0000_0000_0000))
            && (r != Err(TooLarge) && p.chain.None? ==>
                  (r == Ok(limited) <==> ValidateEvent(p.rules, limited).None?))
  {
    if p.chain.Some? {
      TamperChain.ApplyOutcomes(p.crypto, p.chain.value, s, limited, saveWorks);
    }
  }

  // ----- Nothing hidden gets through

  /** A possible result of preparing the event, with the chain state it leaves. */
  ghost predicate CouldPrepare(
    p: Preparer, s: TamperChain.State, raw: Event, freshId: Text, now: Text, saveWorks: bool,
    r: Result<Event, PrepareError>, after: TamperChain.State)
  {
    exists limited :: CouldLimit(p, raw, freshId, now, limited) && (r, after) == Finished(p, s, limited, saveWorks)
  }

  lemma {:induction false} AlikeDefaults(p: Preparer, a: Event, b: Event, freshId: Text, now: Text)
    requires Redaction.AlikeEvents(p.redactor, a, b)
    ensures Redaction.AlikeEvents(p.redactor, Defaulted(p.rules, p.defaults, a, freshId, now),
                                  Defaulted(p.rules, p.defaults, b, freshId, now))
  {}

  /**
    * Noninterference end to end: two events that differ only in what redaction hides have the same limited
    * forms and the same outcomes of preparation -- prepared event, error and chain state -- so nothing hidden
    * can be told from the buffer, the outbox, the server or the chain.
    */
  lemma {:induction false} NothingHiddenGetsThrough(
    p: Preparer, s: TamperChain.State, a: Event, b: Event, freshId: Text, now: Text, saveWorks: bool)
    requires Redaction.AlikeEvents(p.redactor, a, b)
    ensures forall limited :: CouldLimit(p, a, freshId, now, limited) <==> CouldLimit(p, b, freshId, now, limited)
    ensures forall r, after ::
              CouldPrepare(p, s, a, freshId, now, saveWorks, r, after)
              <==> CouldPrepare(p, s, b, freshId, now, saveWorks, r, after)
  {
    AlikeDefaults(p, a, b, freshId, now);
    Redaction.RedactionHidesExactly(p.redactor, Defaulted(p.rules, p.defaults, a, freshId, now),
                                    Defaulted(p.rules, p.defaults, b, freshId, now));
  }

  // ----- Long IDs

  /** A text cut with the marker is not blank. */
  lemma {:induction false} CutIsNotBlank(key: Text, max: int)
    requires |SUFFIX| < max < |key|
    ensures TrimSpace(Truncate(key, max)) != []
  {
    var cut := Truncate(key, max);
    assert cut == key[..Kept(key, max)] + SUFFIX;
    assert SUFFIX[|SUFFIX| - 1] == BRACKET;
    BracketIsNotBlank(cut);
  }

  /** Trimming and truncation are the library's own. */
  ghost predicate StandardTexts(p: Preparer) {
    Trims(p.rules) && Limits.Truncates(p.limiter)
  }

  /** The idempotency key an event would travel under if nothing truncated it. */
  function KeyOf(raw: Event, id: Text): Text {
    Or(TrimSpace(raw.idempotencyKey), id)
  }

  /** Any key and any ID: the check of the two compares the ID with what truncation leaves of the key. */
  lemma {:induction false} IdMismatchIff(p: Preparer, raw: Event, freshId: Text, now: Text, limited: Event)
    requires StandardTexts(p) && CouldLimit(p, raw, freshId, now, limited)
    ensures var id := IdOf(p.rules, raw, freshId);
            var cut := TrimSpace(Truncate(KeyOf(raw, id), p.limiter.maxString));
            Envelope(p.rules, limited) == Some(IdMismatch) <==> cut != [] && cut != TrimSpace(id)
  {
    LimitsKeepEnvelope(p, raw, freshId, now, limited);
  }

  lemma {:induction false} CutOfTrimmed(key: Text, max: int)
    requires TrimSpace(key) == key && 0 < max < |key|
    ensures TrimSpace(Truncate(key, max)) != [] <==> Truncate(key, max) != []
    ensures TrimSpace(Truncate(key, max)) != key
  {
    var cut := Truncate(key, max);
    assert |TrimSpace(cut)| <= |cut| <= max;
    if max > |SUFFIX| {
      CutIsNotBlank(key, max);
    } else if cut != [] {
      PrefixOfTrimmed(key, cut);
    }
  }

  /**
    * The idempotency key is truncated but the ID it must match is not. Exactly when that rejects an event whose
    * key and ID agree: if and only if the key is over the string limit and truncation leaves anything of it.
    * Here the key is the caller's, trimmed, or without one the ID itself, which then has no surrounding space.
    */
  lemma {:induction false} LongIdsMismatchIff(p: Preparer, raw: Event, freshId: Text, now: Text, limited: Event)
    requires StandardTexts(p) && CouldLimit(p, raw, freshId, now, limited)
    requires var id := IdOf(p.rules, raw, freshId); TrimSpace(KeyOf(raw, id)) == KeyOf(raw, id) == TrimSpace(id)
    ensures var key, max := KeyOf(raw, IdOf(p.rules, raw, freshId)), p.limiter.maxString;
            Envelope(p.rules, limited) == Some(IdMismatch) <==> 0 < max < |key| && Truncate(key, max) != []
  {
    var key, max := KeyOf(raw, IdOf(p.rules, raw, freshId)), p.limiter.maxString;
    IdMismatchIff(p, raw, freshId, now, limited);
    if 0 < max < |key| {
      CutOfTrimmed(key, max);
    }
  }

  /** A limit of four bytes or more leaves something of every text. */
  lemma {:induction false} CutIsNotEmpty(key: Text, max: int)
    requires 4 <= max < |key|
    ensures Truncate(key, max) != []
  {
    TruncationIsSafe(key, max);
  }

  /**
    * So with any limit from four bytes on, every trimmed ID over it is rejected, whatever its key; and with a
    * limit that has room for the marker, every ID whose trimmed form is over it.
    */
  lemma {:induction false} LongIdsAreRejected(
    p: Preparer, s: TamperChain.State, raw: Event, freshId: Text, now: Text, saveWorks: bool, limited: Event)
    ensures StandardTexts(p) && CouldLimit(p, raw, freshId, now, limited)
            && TooLong(IdOf(p.rules, raw, freshId), p.limiter.maxString)
            ==> Finished(p, s, limited, saveWorks).0.Err?
  {
    var id, max := IdOf(p.rules, raw, freshId), p.limiter.maxString;
    if StandardTexts(p) && CouldLimit(p, raw, freshId, now, limited) && TooLong(id, max) {
      LimitsKeepEnvelope(p, raw, freshId, now, limited);
      LongKeyMismatches(raw.idempotencyKey, id, max);
      MismatchIsRejected(p, s, limited, saveWorks);
    }
  }

  predicate TooLong(id: Text, max: int) {
    4 <= max < |TrimSpace(id)| && (TrimSpace(id) == id || |SUFFIX| < max)
  }

  lemma {:induction false} LongKeyMismatches(rawKey: Text, id: Text, max: int)
    requires TooLong(id, max)
    ensures var cut := Truncate(Or(TrimSpace(rawKey), id), max);
            TrimSpace(cut) != [] && TrimSpace(cut) != TrimSpace(id)
  {
    var key := Or(TrimSpace(rawKey), id);
    TrimSpaceIdempotent(rawKey);
    if |SUFFIX| < max < |key| {
      CutIsNotBlank(key, max);
    } else if |key| > max {
      CutOfTrimmed(key, max);
      CutIsNotEmpty(key, max);
    }
    assert |TrimSpace(Truncate(key, max))| <= |Truncate(key, max)| <= max;
  }

  lemma {:induction false} MismatchIsRejected(p: Preparer, s: TamperChain.State, limited: Event, saveWorks: bool)
    requires p.rules.trim(limited.idempotencyKey) != []
    requires p.rules.trim(limited.idempotencyKey) != p.rules.trim(limited.eventId)
    ensures Finished(p, s, limited, saveWorks).0.Err?
  {
    if p.chain.Some? {
      StampsOnlyMetadata(p.crypto, p.chain.value, s, limited, saveWorks);
    }
  }

  /** With a string limit of 10 bytes, the 11-byte ID `abcdefghijk` is rejected for disagreeing with itself. */
  lemma {:induction false} ElevenBytesMismatch(p: Preparer, raw: Event, freshId: Text, now: Text, limited: Event)
    requires StandardTexts(p) && p.limiter.maxString == 10 && CouldLimit(p, raw, freshId, now, limited)
    requires raw.eventId == Ascii("abcdefghijk") && raw.idempotencyKey == []
    ensures Envelope(p.rules, limited) == Some(IdMismatch)
  {
    var id := raw.eventId;
    assert id[0] == 97 && id[10] == 107;
    TrimmedEnds(id);
    assert TrimSpace([]) == [];
    CutIsNotEmpty(id, 10);
    LongIdsMismatchIff(p, raw, freshId, now, limited);
  }

  /** A key that fits and agrees with the ID, or a fitting ID without a key, never fails the check of the two. */
  lemma {:induction false} ShortIdsMatch(p: Preparer, raw: Event, freshId: Text, now: Text, limited: Event)
    requires Limits.Cuts(p.limiter) && CouldLimit(p, raw, freshId, now, limited)
    requires var id := IdOf(p.rules, raw, freshId);
             var key := Or(p.rules.trim(raw.idempotencyKey), id);
             Limits.Fits(p.limiter, key) && p.rules.trim(key) == p.rules.trim(id)
    ensures Envelope(p.rules, limited) != Some(IdMismatch)
  {
    LimitsKeepEnvelope(p, raw, freshId, now, limited);
  }
}
