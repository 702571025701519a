/** The hub's values: events, filters, receiver records and internal messages. */
module Models {

  /** A decoded field value; `Nil` is Go's nil interface. */
  datatype Value = Nil | Flag(b: bool) | Number(n: real) | Text(s: string) | List(items: seq<Value>)

  datatype SecurityEvent = SecurityEvent(
    id: string, typ: string, source: string,
    subjectFormat: string, subjectIdentifier: string, claims: map<string, Value>,
    transmitterId: string, data: map<string, Value>, extensions: map<string, Value>)

  datatype FilterOp = Equals | Contains | Matching | In | Exists | Unknown(name: string)

  datatype EventFilter = EventFilter(field: string, op: FilterOp, operand: Value)

  function Lookup(m: map<string, Value>, key: string): Value {
    if key in m then m[key] else Nil
  }

  /** The value a filter looks at, by dotted field name; `Nil` when there is none. */
  function Extract(field: string, e: SecurityEvent): Value {
    if field == "id" then Text(e.id)
    else if field == "type" then Text(e.typ)
    else if field == "source" then Text(e.source)
    else if field == "subject.format" then Text(e.subjectFormat)
    else if field == "subject.identifier" then Text(e.subjectIdentifier)
    else if field == "metadata.transmitter_id" then Text(e.transmitterId)
    else if |field| > 5 && field[..5] == "data." then Lookup(e.data, field[5..])
    else if |field| > 11 && field[..11] == "extensions." then Lookup(e.extensions, field[11..])
    else if |field| > 8 && field[..8] == "subject." then Lookup(e.claims, field[8..])
    else Nil
  }

  /** The operator the source names "contains": it compares the tail of `a` with `b`. */
  predicate ContainsText(a: Value, b: Value) {
    && a.Text? && b.Text?
    && |a.s| >= |b.s|
    && a.s[|a.s| - |b.s|..] == b.s
  }

  predicate Matches(f: EventFilter, e: SecurityEvent) {
    var value := Extract(f.field, e);
    if value == Nil then f.op != Exists
    else match f.op
      case Equals => value == f.operand
      case Contains => ContainsText(value, f.operand)
      case Matching => ContainsText(value, f.operand)
      case In => f.operand.List? && value in f.operand.items
      case Exists => true
      case Unknown(_) => false
  }

  /** "contains" holds exactly of suffixes, and so differs from containment. */
  lemma ContainsIsSuffix(a: string, b: string)
    ensures ContainsText(Text(a), Text(b)) <==> exists p: string :: a == p + b
    ensures exists x: string, p: string, q: string :: !ContainsText(Text(p + x + q), Text(x))
  {
    if ContainsText(Text(a), Text(b)) {
      assert a == a[..|a| - |b|] + b;
    }
    var p, x, q := "", "issuer", ".example";
    assert (p + x + q)[|p + x + q| - 1] == 'e' && x[|x| - 1] == 'r';
    assert !ContainsText(Text(p + x + q), Text(x));
  }

  predicate AllMatch(filters: seq<EventFilter>, e: SecurityEvent) {
    forall f | f in filters :: Matches(f, e)
  }

  const SECOND: int := 1_000_000_000
  const WEBHOOK := "webhook"
  const ACTIVE := "active"
  const WILDCARD := "*"

  datatype DeliveryConfig = DeliveryConfig(channel: string, batchSize: int, timeout: int)

  datatype Auth = Auth(
    typ: string, token: string, clientId: string, clientSecret: string, tokenUrl: string,
    secret: string, algorithm: string)

  datatype RetryConfig = RetryConfig(
    maxRetries: int, initialInterval: int, maxInterval: int, multiplier: real, jitter: bool)

  /** Times count nanoseconds; 0 is Go's zero time. */
  datatype Metadata = Metadata(
    createdAt: int, updatedAt: int, lastEventAt: int,
    eventsReceived: int, eventsDelivered: int, eventsFailed: int, lastDeliveryError: string)

  /** A receiver as a value: the fields of its struct, with slices and maps read out. */
  datatype Receiver = Receiver(
    id: string, name: string, description: string, webhookUrl: string,
    eventTypes: seq<string>, delivery: DeliveryConfig, auth: Auth, scopes: seq<string>,
    filters: seq<EventFilter>, retry: RetryConfig, status: string,
    metadata: Metadata, tags: map<string, string>)

  /** What the registry's selection asks of a receiver. */
  predicate RegistryAccepts(r: Receiver, e: SecurityEvent) {
    r.status == ACTIVE && e.typ in r.eventTypes && AllMatch(r.filters, e)
  }

  /** What the distributor's second look asks of the same receiver. */
  predicate DistributorAccepts(r: Receiver, e: SecurityEvent) {
    (WILDCARD in r.eventTypes || e.typ in r.eventTypes) && AllMatch(r.filters, e)
  }

  /** The message of the unified topic; `hubId` is the stamp of the hub that published it. */
  datatype Message = Message(
    messageId: string, event: SecurityEvent, targets: seq<string>,
    ttl: int, createdAt: int, hubId: string)

  const DEFAULT_TTL: int := 24 * 3600 * SECOND

  function ToInternalMessage(
    e: SecurityEvent, targets: seq<string>, hubId: string, messageId: string, now: int): Message
  {
    Message(messageId, e, targets, DEFAULT_TTL, now, hubId)
  }

  predicate Expired(m: Message, now: int) {
    m.ttl > 0 && now > m.createdAt + m.ttl
  }

  /** Message IDs identify messages of a log. */
  ghost predicate DistinctIds(log: seq<Message>) {
    forall i, j | 0 <= i < j < |log| :: log[i].messageId != log[j].messageId
  }
}
