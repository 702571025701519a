/**
 The registry as a value: a table from receiver ID to record, the operations on it, and what they
 keep. The heap-based registry of Registry.dfy is proved to carry these operations out.
 */
module ReceiverTable {
  import opened Wrappers
  import opened Sequences
  import opened Sums
  import opened Models

  type Table = map<string, Receiver>

  datatype ValidationError =
    | MissingId
    | NoEventTypes
    | MissingWebhook
    | BadWebhook
    | BadChannel(channel: string)
    | IncompleteAuth(typ: string)
    | BadAuthType(typ: string)

  datatype RegistryError =
    | NilReceiver
    | Invalid(reason: ValidationError)
    | AlreadyExists(id: string)
    | NotFound(id: string)

  /** Auth validation fills in the HMAC algorithm as it goes. */
  function CheckAuth(a: Auth): Result<Auth, ValidationError> {
    if a.typ == "none" || a.typ == "" then Ok(a)
    else if a.typ == "bearer" then
      if a.token == "" then Err(IncompleteAuth(a.typ)) else Ok(a)
    else if a.typ == "oauth2" then
      if a.clientId == "" || a.clientSecret == "" || a.tokenUrl == "" then Err(IncompleteAuth(a.typ)) else Ok(a)
    else if a.typ == "hmac" then
      if a.secret == "" then Err(IncompleteAuth(a.typ))
      else Ok(if a.algorithm == "" then a.(algorithm := "sha256") else a)
    else Err(BadAuthType(a.typ))
  }

  /** Validation of a receiver; `urlOk` stands for a URL that parses. */
  function Check(urlOk: string -> bool, r: Receiver): Result<Receiver, ValidationError> {
    if r.id == "" then Err(MissingId)
    else if r.eventTypes == [] then Err(NoEventTypes)
    else if r.delivery.channel != WEBHOOK then Err(BadChannel(r.delivery.channel))
    else if r.webhookUrl == "" then Err(MissingWebhook)
    else if !urlOk(r.webhookUrl) then Err(BadWebhook)
    else
      var auth :- CheckAuth(r.auth);
      Ok(r.(auth := auth))
  }

  /** The caller's record after validation, which may have been given an algorithm. */
  function Checked(urlOk: string -> bool, r: Receiver): Receiver {
    match Check(urlOk, r) case Ok(c) => c case Err(_) => r
  }

  /** Validation is idempotent: what it fills in, it then accepts. */
  lemma CheckTwice(urlOk: string -> bool, r: Receiver)
    ensures Check(urlOk, r).Ok? ==> Check(urlOk, Checked(urlOk, r)) == Ok(Checked(urlOk, r))
    ensures Checked(urlOk, r).id == r.id
  {
  }

  function DefaultRetry(c: RetryConfig): RetryConfig {
    RetryConfig(
      if c.maxRetries == 0 then 3 else c.maxRetries,
      if c.initialInterval == 0 then SECOND else c.initialInterval,
      if c.maxInterval == 0 then 60 * SECOND else c.maxInterval,
      if c.multiplier == 0.0 then 2.0 else c.multiplier,
      c.jitter)
  }

  function DefaultStatus(status: string): string {
    if status == "" then ACTIVE else status
  }

  function DefaultDelivery(d: DeliveryConfig): DeliveryConfig {
    DeliveryConfig(
      if d.channel == "" then WEBHOOK else d.channel,
      if d.batchSize == 0 then 1 else d.batchSize,
      if d.timeout == 0 then 30 * SECOND else d.timeout)
  }

  function DefaultAuth(a: Auth): Auth {
    if a.typ == "" then a.(typ := "none") else a
  }

  function DefaultMetadata(m: Metadata, now: int): Metadata {
    m.(createdAt := if m.createdAt == 0 then now else m.createdAt, updatedAt := now)
  }

  function WithDefaults(r: Receiver, now: int): Receiver {
    r.(status := DefaultStatus(r.status), delivery := DefaultDelivery(r.delivery), auth := DefaultAuth(r.auth),
       retry := DefaultRetry(r.retry), metadata := DefaultMetadata(r.metadata, now))
  }

  const BLANK_METADATA := Metadata(0, 0, 0, 0, 0, 0, "")

  /** A registration or update request as the broker turns it into a receiver. */
  function FromRequest(request: Receiver, now: int): Receiver {
    WithDefaults(request.(status := "", metadata := BLANK_METADATA), now)
  }

  /** The record that registration stores. */
  function Registered(r: Receiver, now: int): Receiver {
    var d := WithDefaults(r, now);
    d.(metadata := d.metadata.(createdAt := now, updatedAt := now))
  }

  function Register(urlOk: string -> bool, t: Table, r: Receiver, now: int): Result<Table, RegistryError> {
    match Check(urlOk, r)
    case Err(e) => Err(Invalid(e))
    case Ok(c) => if c.id in t then Err(AlreadyExists(c.id)) else Ok(t[c.id := Registered(c, now)])
  }

  function Unregister(t: Table, id: string): Result<Table, RegistryError> {
    if id in t then Ok(t - {id}) else Err(NotFound(id))
  }

  /** The record that an update stores: the new settings over the old statistics. */
  function Merged(existing: Receiver, r: Receiver, now: int): Receiver {
    var was := existing.metadata;
    r.(metadata := r.metadata.(
         createdAt := was.createdAt, eventsReceived := was.eventsReceived,
         eventsDelivered := was.eventsDelivered, eventsFailed := was.eventsFailed,
         lastEventAt := was.lastEventAt, updatedAt := now))
  }

  function Update(urlOk: string -> bool, t: Table, r: Receiver, now: int): Result<Table, RegistryError> {
    match Check(urlOk, r)
    case Err(e) => Err(Invalid(e))
    case Ok(c) => if c.id in t then Ok(t[c.id := Merged(t[c.id], c, now)]) else Err(NotFound(c.id))
  }

  function WithMetadata(t: Table, id: string, meta: Metadata): Table
    requires id in t
  {
    t[id := t[id].(metadata := meta)]
  }

  /** The counting operations change nothing when the receiver is gone. */
  function CountReceived(t: Table, id: string, now: int): Table {
    if id !in t then t
    else
      var m := t[id].metadata;
      WithMetadata(t, id, m.(eventsReceived := m.eventsReceived + 1, lastEventAt := now, updatedAt := now))
  }

  function CountDelivered(t: Table, id: string, now: int): Table {
    if id !in t then t
    else
      var m := t[id].metadata;
      WithMetadata(t, id, m.(eventsDelivered := m.eventsDelivered + 1, updatedAt := now))
  }

  function CountFailed(t: Table, id: string, error: string, now: int): Table {
    if id !in t then t
    else
      var m := t[id].metadata;
      WithMetadata(t, id, m.(eventsFailed := m.eventsFailed + 1, lastDeliveryError := error, updatedAt := now))
  }

  function SetStatus(t: Table, id: string, status: string, now: int): Table {
    if id !in t then t
    else t[id := t[id].(status := status, metadata := t[id].metadata.(updatedAt := now))]
  }

  /** Every key is its record's ID, and every record passes validation unchanged. */
  ghost predicate Consistent(urlOk: string -> bool, t: Table) {
    forall id {:trigger EntryOk(urlOk, t, id)} | id in t :: EntryOk(urlOk, t, id)
  }

  ghost predicate EntryOk(urlOk: string -> bool, t: Table, id: string)
    requires id in t
  {
    t[id].id == id && Check(urlOk, t[id]) == Ok(t[id])
  }

  lemma PutKeepsConsistent(urlOk: string -> bool, t: Table, r: Receiver)
    requires Consistent(urlOk, t) && Check(urlOk, r) == Ok(r)
    ensures Consistent(urlOk, t[r.id := r])
  {
    var s := t[r.id := r];
    forall id | id in s
      ensures EntryOk(urlOk, s, id)
    {
      assert id != r.id ==> EntryOk(urlOk, t, id);
    }
  }

  lemma RemoveKeepsConsistent(urlOk: string -> bool, t: Table, id: string)
    requires Consistent(urlOk, t)
    ensures Consistent(urlOk, t - {id})
  {
    var s := t - {id};
    forall k | k in s
      ensures EntryOk(urlOk, s, k)
    {
      assert EntryOk(urlOk, t, k);
    }
  }

  lemma RegisterKeepsConsistent(urlOk: string -> bool, t: Table, r: Receiver, now: int)
    requires Consistent(urlOk, t) && Register(urlOk, t, r, now).Ok?
    ensures Consistent(urlOk, Register(urlOk, t, r, now).value)
    ensures var s := Register(urlOk, t, r, now).value;
            r.id !in t && r.id in s && s - {r.id} == t && s[r.id].status != ""
  {
    var s := Register(urlOk, t, r, now).value;
    PutKeepsConsistent(urlOk, t, s[r.id]);
    assert s - {r.id} == t;
  }

  /** Updating replaces the settings and keeps the creation time, the counters and the last event time. */
  lemma UpdateKeepsStatistics(urlOk: string -> bool, t: Table, r: Receiver, now: int)
    requires Consistent(urlOk, t) && Update(urlOk, t, r, now).Ok?
    ensures var s := Update(urlOk, t, r, now).value;
            && Consistent(urlOk, s) && s.Keys == t.Keys
            && (forall id | id in t && id != r.id :: s[id] == t[id])
            && s[r.id].metadata.createdAt == t[r.id].metadata.createdAt
            && s[r.id].metadata.lastEventAt == t[r.id].metadata.lastEventAt
            && Received(s[r.id]) == Received(t[r.id])
            && Delivered(s[r.id]) == Delivered(t[r.id])
            && Failed(s[r.id]) == Failed(t[r.id])
            && s[r.id].status == r.status && s[r.id].eventTypes == r.eventTypes && s[r.id].filters == r.filters
  {
    var s := Update(urlOk, t, r, now).value;
    PutKeepsConsistent(urlOk, t, s[r.id]);
  }

  lemma WithMetadataKeepsConsistent(urlOk: string -> bool, t: Table, id: string, meta: Metadata)
    requires Consistent(urlOk, t) && id in t
    ensures Consistent(urlOk, WithMetadata(t, id, meta))
  {
    assert EntryOk(urlOk, t, id);
    PutKeepsConsistent(urlOk, t, t[id].(metadata := meta));
  }

  /** Counting an event, in any of the three ways, keeps the table consistent and all but metadata. */
  lemma CountingKeepsConsistent(urlOk: string -> bool, t: Table, id: string, error: string, now: int)
    requires Consistent(urlOk, t)
    ensures Consistent(urlOk, CountReceived(t, id, now)) && SettingsEqual(t, CountReceived(t, id, now))
    ensures Consistent(urlOk, CountDelivered(t, id, now)) && SettingsEqual(t, CountDelivered(t, id, now))
    ensures Consistent(urlOk, CountFailed(t, id, error, now)) && SettingsEqual(t, CountFailed(t, id, error, now))
  {
    if id in t {
      forall meta
        ensures Consistent(urlOk, WithMetadata(t, id, meta)) && SettingsEqual(t, WithMetadata(t, id, meta))
      {
        WithMetadataKeepsConsistent(urlOk, t, id, meta);
      }
    }
  }

  /** The tables differ in metadata only, so they route every event alike. */
  ghost predicate SettingsEqual(t: Table, s: Table) {
    s.Keys == t.Keys && forall id | id in t :: s[id].(metadata := t[id].metadata) == t[id]
  }

  /**
   An update sent through the broker makes a receiver active again, whatever its status was; so it keeps the
   status exactly when that was active.
   */
  lemma BrokerUpdateReactivates(
      urlOk: string -> bool, t: Table, request: Receiver, status: string, now: int, later: int)
    requires request.id in t && Check(urlOk, FromRequest(request, later)).Ok?
    ensures var before := SetStatus(t, request.id, status, now);
            var s := Update(urlOk, before, FromRequest(request, later), later);
            && s.Ok? && s.value[request.id].status == ACTIVE
            && (s.value[request.id].status == before[request.id].status <==> status == ACTIVE)
  {
  }

  /**
   The last delivery error is no statistic to an update: it becomes that of the record passed in. An update
   keeps it exactly when that record carries the same one, as a copy read from the registry does; an update
   through the broker carries none, and so keeps it exactly when there was none.
   */
  lemma ErrorAfterUpdate(urlOk: string -> bool, t: Table, r: Receiver, request: Receiver, now: int)
    ensures Update(urlOk, t, r, now).Ok? ==>
              var s := Update(urlOk, t, r, now).value;
              && LastError(s[r.id]) == LastError(r)
              && (LastError(s[r.id]) == LastError(t[r.id]) <==> LastError(r) == LastError(t[r.id]))
              && (r.metadata == t[r.id].metadata ==> LastError(s[r.id]) == LastError(t[r.id]))
    ensures Update(urlOk, t, FromRequest(request, now), now).Ok? ==>
              var s := Update(urlOk, t, FromRequest(request, now), now).value;
              && LastError(s[request.id]) == ""
              && (LastError(s[request.id]) == LastError(t[request.id]) <==> LastError(t[request.id]) == "")
  {
    if Update(urlOk, t, r, now).Ok? {
      assert Checked(urlOk, r).metadata == r.metadata;
    }
  }

  function LastError(r: Receiver): string { r.metadata.lastDeliveryError }

  function Received(r: Receiver): int { r.metadata.eventsReceived }

  function Delivered(r: Receiver): int { r.metadata.eventsDelivered }

  function Failed(r: Receiver): int { r.metadata.eventsFailed }

  /** The sum of one counter over the table. */
  ghost function TotalOf(t: Table, f: Receiver -> int): int {
    Total(map id | id in t :: f(t[id]))
  }

  lemma TotalOfUpdate(t: Table, id: string, r: Receiver, f: Receiver -> int)
    ensures TotalOf(t[id := r], f) == TotalOf(t, f) - (if id in t then f(t[id]) else 0) + f(r)
  {
    var m := map k | k in t :: f(t[k]);
    var s := t[id := r];
    assert (map k | k in s :: f(s[k])) == m[id := f(r)];
    TotalUpdate(m, id, f(r));
  }

  lemma TotalOfRemove(t: Table, id: string, f: Receiver -> int)
    requires id in t
    ensures TotalOf(t - {id}, f) == TotalOf(t, f) - f(t[id])
  {
    var m := map k | k in t :: f(t[k]);
    var s := t - {id};
    assert (map k | k in s :: f(s[k])) == m - {id};
    TotalRemove(m, id);
  }

  /** `ids` lists, once each and in some order, the receivers that selection picks for `e`. */
  ghost predicate IsSelection(t: Table, e: SecurityEvent, ids: seq<string>) {
    && NoDuplicates(ids)
    && forall id :: id in ids <==> id in t && RegistryAccepts(t[id], e)
  }
}
