/** What a registration or update must bring to be accepted, why it is refused, and what is then stored. */
module Registration {
  import opened Wrappers
  import opened Sequences
  import opened Models
  import opened ReceiverTable

  /** The credentials that the auth type asks for. */
  predicate HasCredentials(a: Auth) {
    || a.typ in {"", "none"}
    || (a.typ == "bearer" && a.token != "")
    || (a.typ == "oauth2" && "" !in {a.clientId, a.clientSecret, a.tokenUrl})
    || (a.typ == "hmac" && a.secret != "")
  }

  /** All that a receiver must have. */
  predicate Complete(urlOk: string -> bool, r: Receiver) {
    && r.id != "" && |r.eventTypes| > 0
    && r.delivery.channel == "webhook" && r.webhookUrl != "" && urlOk(r.webhookUrl)
    && HasCredentials(r.auth)
  }

  /** A registration is accepted exactly when the receiver is complete and its ID is new. */
  lemma AcceptedExactlyWhen(urlOk: string -> bool, t: Table, r: Receiver, now: int)
    ensures Register(urlOk, t, r, now).Ok? <==> Complete(urlOk, r) && r.id !in t
    ensures Update(urlOk, t, r, now).Ok? <==> Complete(urlOk, r) && r.id in t
  {
  }

  /** Every stored receiver is complete, under its own ID; one that signs has an algorithm too. */
  lemma StoredAreComplete(urlOk: string -> bool, t: Table, id: string)
    requires Consistent(urlOk, t) && id in t
    ensures t[id].id == id && Complete(urlOk, t[id])
    ensures t[id].auth.typ == "hmac" ==> t[id].auth.algorithm != ""
  {
    assert EntryOk(urlOk, t, id);
  }

  /** And a table of complete receivers under their own IDs is consistent. */
  lemma CompleteAreConsistent(urlOk: string -> bool, t: Table)
    requires forall id | id in t ::
               t[id].id == id && Complete(urlOk, t[id]) && (t[id].auth.typ == "hmac" ==> t[id].auth.algorithm != "")
    ensures Consistent(urlOk, t)
  {
  }

  /** The reason a receiver is refused for is the first in this order that applies. */
  function Reasons(urlOk: string -> bool, r: Receiver): seq<Fault<ValidationError>> {
    [(r.id == "", MissingId),
     (r.eventTypes == [], NoEventTypes),
     (r.delivery.channel != "webhook", BadChannel(r.delivery.channel)),
     (r.webhookUrl == "", MissingWebhook),
     (!urlOk(r.webhookUrl), BadWebhook),
     (r.auth.typ in {"bearer", "oauth2", "hmac"} && !HasCredentials(r.auth), IncompleteAuth(r.auth.typ)),
     (r.auth.typ !in {"", "none", "bearer", "oauth2", "hmac"}, BadAuthType(r.auth.typ))]
  }

  /** The chain of reasons, and the errors that come after it. */
  lemma RefusedForTheFirstReason(urlOk: string -> bool, t: Table, r: Receiver, now: int)
    ensures First(Reasons(urlOk, r)) == None <==> Complete(urlOk, r)
    ensures match First(Reasons(urlOk, r))
            case Some(e) =>
              Register(urlOk, t, r, now) == Err(Invalid(e)) && Update(urlOk, t, r, now) == Err(Invalid(e))
            case None =>
              && (r.id in t ==> Register(urlOk, t, r, now) == Err(AlreadyExists(r.id)))
              && (r.id !in t ==> Update(urlOk, t, r, now) == Err(NotFound(r.id)))
  {
    var s := Reasons(urlOk, r);
    FirstIsNone(s);
    var k := if s[0].0 then 0 else if s[1].0 then 1 else if s[2].0 then 2 else if s[3].0 then 3
             else if s[4].0 then 4 else if s[5].0 then 5 else 6;
    if s[k].0 {
      FirstIs(s, k);
    }
  }

  // What is stored

  /** Given, or the default when it is zero. */
  function Or(given: int, default: int): int {
    if given != 0 then given else default
  }

  /** Settings that registration neither checks nor fills in. */
  predicate SameTexts(r: Receiver, s: Receiver) {
    && s.id == r.id && s.name == r.name && s.description == r.description && s.webhookUrl == r.webhookUrl
    && s.eventTypes == r.eventTypes && s.scopes == r.scopes && s.filters == r.filters && s.tags == r.tags
  }

  /** Credentials stay; only a missing type and a missing algorithm are filled in. */
  predicate SameAuth(a: Auth, b: Auth) {
    && b.typ == (if a.typ == "" then "none" else a.typ)
    && b.algorithm == (if a.typ == "hmac" && a.algorithm == "" then "sha256" else a.algorithm)
    && b.(typ := a.typ, algorithm := a.algorithm) == a
  }

  /** Registration stores what it was given, with the documented defaults, under the time of registration. */
  lemma StoredAsGiven(urlOk: string -> bool, t: Table, r: Receiver, now: int)
    requires Register(urlOk, t, r, now).Ok?
    ensures var s := Register(urlOk, t, r, now).value[r.id];
            && SameTexts(r, s) && SameAuth(r.auth, s.auth)
            && s.status == (if r.status == "" then "active" else r.status)
            && s.delivery ==
               DeliveryConfig("webhook", Or(r.delivery.batchSize, 1), Or(r.delivery.timeout, 30_000_000_000))
            && s.retry == RetryConfig(
                 Or(r.retry.maxRetries, 3), Or(r.retry.initialInterval, 1_000_000_000),
                 Or(r.retry.maxInterval, 60_000_000_000),
                 if r.retry.multiplier == 0.0 then 2.0 else r.retry.multiplier, r.retry.jitter)
            && s.metadata == r.metadata.(createdAt := now, updatedAt := now)
  {
  }

  /** A request brings no status and no statistics: it is stored as active, with all counts at zero. */
  lemma RequestsStartAtZero(urlOk: string -> bool, t: Table, request: Receiver, now: int)
    requires Register(urlOk, t, FromRequest(request, now), now).Ok?
    ensures var s := Register(urlOk, t, FromRequest(request, now), now).value[request.id];
            && SameTexts(request, s) && SameAuth(request.auth, s.auth) && s.status == "active"
            && s.metadata == Metadata(now, now, 0, 0, 0, 0, "")
  {
  }

  /** A request without a delivery channel asks for a webhook; one for anything else is refused. */
  lemma RequestsAreForWebhooks(urlOk: string -> bool, t: Table, request: Receiver, now: int)
    ensures Register(urlOk, t, FromRequest(request, now), now).Ok? <==>
            && request.delivery.channel in {"", "webhook"} && request.id !in t
            && Complete(urlOk, request.(delivery := request.delivery.(channel := "webhook")))
  {
    AcceptedExactlyWhen(urlOk, t, FromRequest(request, now), now);
  }

  /** An update stores the settings as given, without defaults, and the time. */
  lemma UpdatedAsGiven(urlOk: string -> bool, t: Table, r: Receiver, now: int)
    requires Update(urlOk, t, r, now).Ok?
    ensures var s := Update(urlOk, t, r, now).value[r.id];
            && SameTexts(r, s) && s.status == r.status && s.delivery == r.delivery && s.retry == r.retry
            && s.auth == r.auth.(algorithm :=
                 if r.auth.typ == "hmac" && r.auth.algorithm == "" then "sha256" else r.auth.algorithm)
            && s.metadata.updatedAt == now
  {
  }

  /** Defaults by themselves: a creation time that is set stays, and the counters are nobody's business. */
  lemma DefaultsKeepTheCreationTime(r: Receiver, now: int)
    ensures WithDefaults(r, now).metadata == r.metadata.(createdAt := Or(r.metadata.createdAt, now), updatedAt := now)
  {
  }

  /** Unregistering removes the one receiver, if it is there. */
  lemma UnregisteringRemovesOne(t: Table, id: string)
    ensures Unregister(t, id).Ok? <==> id in t
    ensures id !in t ==> Unregister(t, id) == Err(NotFound(id))
    ensures id in t ==> Unregister(t, id).value.Keys == t.Keys - {id}
    ensures id in t ==> forall other | other in t && other != id :: Unregister(t, id).value[other] == t[other]
  {
  }

  /** What each way of counting writes, and that it writes nothing else. */
  lemma CountingWrites(t: Table, id: string, error: string, now: int)
    requires id in t
    ensures var m := t[id].metadata;
            && CountReceived(t, id, now)[id].metadata ==
               Metadata(m.createdAt, now, now, m.eventsReceived + 1, m.eventsDelivered, m.eventsFailed,
                        m.lastDeliveryError)
            && CountDelivered(t, id, now)[id].metadata ==
               Metadata(m.createdAt, now, m.lastEventAt, m.eventsReceived, m.eventsDelivered + 1, m.eventsFailed,
                        m.lastDeliveryError)
            && CountFailed(t, id, error, now)[id].metadata ==
               Metadata(m.createdAt, now, m.lastEventAt, m.eventsReceived, m.eventsDelivered, m.eventsFailed + 1, error)
  {
  }

  lemma StatusWrites(t: Table, id: string, status: string, now: int)
    requires id in t
    ensures var s := SetStatus(t, id, status, now)[id];
            && s.status == status && s.metadata.updatedAt == now
            && s.(status := t[id].status, metadata := s.metadata.(updatedAt := t[id].metadata.updatedAt)) == t[id]
  {
  }
}
