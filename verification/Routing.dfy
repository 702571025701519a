/** The two routing decisions, by the publishing broker and by the distributor, and how they agree. */
module Routing {
  import opened Models
  import opened ReceiverTable

  /** The distributor starts a delivery for this target. */
  predicate Deliverable(t: Table, id: string, e: SecurityEvent) {
    id in t && DistributorAccepts(t[id], e) && t[id].delivery.channel == WEBHOOK
  }

  /** The receivers that deliveries are started for, in target order. */
  function Spawned(t: Table, targets: seq<string>, e: SecurityEvent): seq<Receiver> {
    if targets == [] then []
    else
      var last := targets[|targets| - 1];
      Spawned(t, targets[..|targets| - 1], e) + if Deliverable(t, last, e) then [t[last]] else []
  }

  /** In the registry that selected them, every target gets its delivery. */
  lemma {:induction false} SelectionIsDelivered(urlOk: string -> bool, t: Table, e: SecurityEvent, ids: seq<string>)
    requires Consistent(urlOk, t)
    requires forall id | id in ids :: id in t && RegistryAccepts(t[id], e)
    ensures |Spawned(t, ids, e)| == |ids|
    ensures forall i | 0 <= i < |ids| :: Spawned(t, ids, e)[i] == t[ids[i]]
  {
    if ids == [] {
    } else {
      var last := ids[|ids| - 1];
      assert last in ids && EntryOk(urlOk, t, last);
      SelectionIsDelivered(urlOk, t, e, ids[..|ids| - 1]);
    }
  }

  /**
     Selection asks for more than delivery does. What the distributor would deliver and selection leaves out
     are the receivers that are not active, and those that ask for every event by wildcard only.
     */
  lemma AcceptanceGap(urlOk: string -> bool, t: Table, id: string, e: SecurityEvent)
    requires Consistent(urlOk, t) && id in t
    ensures RegistryAccepts(t[id], e) ==> Deliverable(t, id, e)
    ensures Deliverable(t, id, e) ==>
              (!RegistryAccepts(t[id], e) <==> t[id].status != ACTIVE || WildcardOnly(t[id], e))
  {
    assert EntryOk(urlOk, t, id);
  }

  /**
   What a registration through the broker is for: from then on an event selects the receiver exactly when the
   request lists its type and all filters of the request match, and the distributor accepts it then.
   */
  lemma RegisteredIsSelected(
      urlOk: string -> bool, t: Table, request: Receiver, now: int, e: SecurityEvent, ids: seq<string>)
    requires Register(urlOk, t, FromRequest(request, now), now).Ok?
    requires IsSelection(Register(urlOk, t, FromRequest(request, now), now).value, e, ids)
    ensures request.id in ids <==> e.typ in request.eventTypes && AllMatch(request.filters, e)
    ensures request.id in ids ==>
              Deliverable(Register(urlOk, t, FromRequest(request, now), now).value, request.id, e)
    ensures forall id | id != request.id :: id in ids <==> id in t && RegistryAccepts(t[id], e)
  {
  }

  /** The wildcard is listed and the event's own type is not. */
  predicate WildcardOnly(r: Receiver, e: SecurityEvent) {
    "*" in r.eventTypes && e.typ !in r.eventTypes
  }

  /**
     A receiver that does not list the type itself is never selected, wildcard or not; one that lists the
     wildcard would be accepted by the distributor all the same.
     */
  lemma WildcardIsNeverSelected(t: Table, id: string, e: SecurityEvent, ids: seq<string>)
    requires id in t && e.typ !in t[id].eventTypes && IsSelection(t, e, ids)
    ensures id !in ids
    ensures AllMatch(t[id].filters, e) ==> (DistributorAccepts(t[id], e) <==> WildcardOnly(t[id], e))
  {
    assert !RegistryAccepts(t[id], e);
  }
}
