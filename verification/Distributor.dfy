/**
 The event distributor: the second routing decision, and one retrying delivery taken by itself. What
 many deliveries do side by side is the subject of HubNode.dfy and Cluster.dfy.
 */
module Distributor {
  import opened Wrappers
  import opened Models
  import opened ReceiverTable
  import opened Registry
  import opened Routing
  import opened Backoff

  datatype RetryPolicy = RetryPolicy(maxRetries: int, initialInterval: int, maxInterval: int, multiplier: real)

  const DEFAULT_POLICY := RetryPolicy(3, SECOND, 60 * SECOND, 2.0)

  datatype Status = Pending | Delivered | Abandoned

  datatype EventDelivery = EventDelivery(
    receiverId: string, eventId: string, attempt: nat, status: Status,
    responseCode: int, responseBody: string, errorMessage: string)

  /** What one webhook call came back with. */
  datatype Response = Response(success: bool, statusCode: int, body: string, error: Option<string>)

  function ErrorText(r: Response): string {
    match r.error case Some(text) => text case None => ""
  }

  /** The loop makes no attempt after this one. */
  predicate Ends(p: RetryPolicy, respond: nat -> Response, cancelled: nat -> bool, attempt: nat) {
    respond(attempt).success || attempt > p.maxRetries || cancelled(attempt)
  }

  /** What one attempt writes into the registry. */
  function Report(t: Table, id: string, r: Response, now: int): Table {
    if r.success then CountDelivered(t, id, now) else CountFailed(t, id, ErrorText(r), now)
  }

  function ReportAll(t: Table, id: string, respond: nat -> Response, clock: nat -> int, attempts: nat): Table {
    if attempts == 0 then t
    else Report(ReportAll(t, id, respond, clock, attempts - 1), id, respond(attempts), clock(attempts))
  }

  /** From `t` to `s` only the receiver's metadata has changed, its counters by these amounts. */
  ghost predicate Raised(t: Table, s: Table, id: string, delivered: int, failed: int) {
    && SettingsEqual(t, s)
    && (forall other | other in t && other != id :: s[other] == t[other])
    && (id in t ==>
          && ReceiverTable.Delivered(s[id]) == ReceiverTable.Delivered(t[id]) + delivered
          && ReceiverTable.Failed(s[id]) == ReceiverTable.Failed(t[id]) + failed
          && ReceiverTable.Received(s[id]) == ReceiverTable.Received(t[id]))
  }

  lemma ReportRaises(urlOk: string -> bool, t: Table, id: string, r: Response, now: int)
    requires Consistent(urlOk, t)
    ensures Consistent(urlOk, Report(t, id, r, now))
    ensures Raised(t, Report(t, id, r, now), id, if r.success then 1 else 0, if r.success then 0 else 1)
  {
    CountingKeepsConsistent(urlOk, t, id, ErrorText(r), now);
  }

  lemma RaisedTwice(t: Table, s: Table, u: Table, id: string, a: int, b: int, c: int, d: int)
    requires Raised(t, s, id, a, b) && Raised(s, u, id, c, d)
    ensures Raised(t, u, id, a + c, b + d)
  {
    forall other | other in t
      ensures u[other].(metadata := t[other].metadata) == t[other]
    {
      assert s[other].(metadata := t[other].metadata) == t[other];
      assert u[other].(metadata := s[other].metadata) == s[other];
    }
  }

  /**
   A delivery in which only the last attempt may succeed raises the receiver's counters by one and the
   number of failures before it, keeps everyone else's record, and keeps all settings.
   */
  lemma {:induction false} DeliveryCounters(
      urlOk: string -> bool, t: Table, id: string, respond: nat -> Response, clock: nat -> int, attempts: nat)
    requires Consistent(urlOk, t)
    requires forall k | 1 <= k < attempts :: !respond(k).success
    ensures var s := ReportAll(t, id, respond, clock, attempts);
            var ok := if attempts > 0 && respond(attempts).success then 1 else 0;
            Consistent(urlOk, s) && Raised(t, s, id, ok, attempts - ok)
  {
    if attempts == 0 {
    } else {
      DeliveryCounters(urlOk, t, id, respond, clock, attempts - 1);
      var s := ReportAll(t, id, respond, clock, attempts - 1);
      var ok := if respond(attempts).success then 1 else 0;
      ReportRaises(urlOk, s, id, respond(attempts), clock(attempts));
      RaisedTwice(t, s, ReportAll(t, id, respond, clock, attempts), id, 0, attempts - 1, ok, 1 - ok);
    }
  }

  /** The delivery record after a response. */
  function Noted(d: EventDelivery, attempt: nat, r: Response): EventDelivery {
    d.(attempt := attempt, responseCode := r.statusCode, responseBody := r.body,
       errorMessage := if r.error.Some? then r.error.value else d.errorMessage)
  }

  /** The waits begun so far are the intervals of the backoff, in order. */
  ghost predicate WaitsFollowBackoff(p: RetryPolicy, waits: seq<int>) {
    forall i | 0 <= i < |waits| :: waits[i] == Interval(p.initialInterval, p.maxInterval, p.multiplier, i)
  }

  function NewDelivery(receiverId: string, eventId: string): EventDelivery {
    EventDelivery(receiverId, eventId, 0, Pending, 0, "", "")
  }

  /** The last error text among the first `n` answers. */
  function ErrorAfter(respond: nat -> Response, n: nat): string {
    if n == 0 then ""
    else match respond(n).error case Some(text) => text case None => ErrorAfter(respond, n - 1)
  }

  /**
   How a delivery ends. The attempt it stops at is the first that ends the loop; it is delivered exactly
   when that one succeeded, all earlier ones having failed; every failed attempt with retries left is
   followed by one wait. With a negative number of retries nothing happens at all.
   */
  ghost predicate Finished(
    p: RetryPolicy, respond: nat -> Response, cancelled: nat -> bool, d: EventDelivery, waits: seq<int>)
  {
    var n := d.attempt;
    && WaitsFollowBackoff(p, waits)
    && (forall k | 1 <= k < n :: !Ends(p, respond, cancelled, k))
    && d.errorMessage == ErrorAfter(respond, n)
    && if p.maxRetries < 0 then d == NewDelivery(d.receiverId, d.eventId) && waits == []
       else
         && 1 <= n <= p.maxRetries + 1 && Ends(p, respond, cancelled, n)
         && d.status == (if respond(n).success then Delivered else Abandoned)
         && d.responseCode == respond(n).statusCode && d.responseBody == respond(n).body
         && |waits| == if d.status == Abandoned && n <= p.maxRetries then n else n - 1
  }

  /** A delivery after attempts that did not end it. */
  ghost predicate Underway(
    p: RetryPolicy, respond: nat -> Response, cancelled: nat -> bool, d: EventDelivery, waits: seq<int>, backoff: int)
  {
    var k := d.attempt;
    && k == |waits| <= p.maxRetries && d.status == Pending && d.errorMessage == ErrorAfter(respond, k)
    && (forall j | 1 <= j <= k :: !Ends(p, respond, cancelled, j))
    && WaitsFollowBackoff(p, waits)
    && backoff == Interval(p.initialInterval, p.maxInterval, p.multiplier, k)
  }

  /** There is only one way for a delivery to end: `Finished` fixes the record and the waits. */
  lemma FinishedIsUnique(
      p: RetryPolicy, respond: nat -> Response, cancelled: nat -> bool, d: EventDelivery, waits: seq<int>,
      e: EventDelivery, others: seq<int>)
    requires Finished(p, respond, cancelled, d, waits) && Finished(p, respond, cancelled, e, others)
    requires d.receiverId == e.receiverId && d.eventId == e.eventId
    ensures d == e && waits == others
  {
    var n, k := d.attempt, e.attempt;
    assert 1 <= n < k ==> !Ends(p, respond, cancelled, n);
    assert 1 <= k < n ==> !Ends(p, respond, cancelled, k);
  }

  /**
   The hub's deliveries are never cancelled: with retries allowed, a delivery is delivered exactly when
   some attempt within the limit succeeds, and else abandoned after the last of them.
   */
  lemma UncancelledDelivery(
      p: RetryPolicy, respond: nat -> Response, cancelled: nat -> bool, d: EventDelivery, waits: seq<int>)
    requires p.maxRetries >= 0 && forall k: nat :: !cancelled(k)
    requires Finished(p, respond, cancelled, d, waits)
    ensures d.status == Delivered <==> exists k: nat :: 1 <= k <= p.maxRetries + 1 && respond(k).success
    ensures d.status != Delivered ==> d.status == Abandoned && d.attempt == p.maxRetries + 1
    ensures |waits| == d.attempt - 1
  {
    assert Ends(p, respond, cancelled, d.attempt);
    forall k: nat | 1 <= k < d.attempt
      ensures !respond(k).success
    {
      assert !Ends(p, respond, cancelled, k);
    }
  }

  lemma DefaultIntervals()
    ensures Interval(1_000_000_000, 60_000_000_000, 2.0, 0) == 1_000_000_000
    ensures Interval(1_000_000_000, 60_000_000_000, 2.0, 1) == 2_000_000_000
    ensures Interval(1_000_000_000, 60_000_000_000, 2.0, 2) == 4_000_000_000
  {
    assert Interval(1_000_000_000, 60_000_000_000, 2.0, 1) == NextInterval(1_000_000_000, 60_000_000_000, 2.0);
    assert Interval(1_000_000_000, 60_000_000_000, 2.0, 2) == NextInterval(2_000_000_000, 60_000_000_000, 2.0);
  }

  /**
   The policy of a distributor that is given none, as every broker's is: four attempts at most, with waits of
   one, two and four seconds between them; delivered exactly when one of the four succeeds.
   */
  lemma DefaultDelivery(respond: nat -> Response, cancelled: nat -> bool, d: EventDelivery, waits: seq<int>)
    requires Finished(DEFAULT_POLICY, respond, cancelled, d, waits)
    ensures 1 <= d.attempt <= 4 && |waits| <= 3
    ensures waits == [1_000_000_000, 2_000_000_000, 4_000_000_000][..|waits|]
    ensures (forall k: nat :: !cancelled(k)) ==>
              && (d.status == Delivered <==>
                    respond(1).success || respond(2).success || respond(3).success || respond(4).success)
              && |waits| == d.attempt - 1
  {
    DefaultIntervals();
    if forall k: nat :: !cancelled(k) {
      UncancelledDelivery(DEFAULT_POLICY, respond, cancelled, d, waits);
    }
  }

  /** With a negative number of retries there is no attempt, no wait, and an empty record. */
  lemma NoRetriesNoAttempt(
      p: RetryPolicy, respond: nat -> Response, cancelled: nat -> bool, d: EventDelivery, waits: seq<int>)
    requires p.maxRetries < 0 && Finished(p, respond, cancelled, d, waits)
    ensures d.attempt == 0 && d.status == Pending && waits == []
    ensures d.responseCode == 0 && d.responseBody == "" && d.errorMessage == ""
  {
  }

  /** The error message of a delivery is the text of the last attempt that had one, and empty when none had. */
  lemma {:induction false} ErrorMessageIsTheLast(respond: nat -> Response, n: nat)
    ensures (forall k | 1 <= k <= n :: respond(k).error == None) ==> ErrorAfter(respond, n) == ""
    ensures forall k | 1 <= k <= n && respond(k).error.Some? && forall j | k < j <= n :: respond(j).error == None ::
              ErrorAfter(respond, n) == respond(k).error.value
  {
    if n == 0 {
    } else {
      ErrorMessageIsTheLast(respond, n - 1);
    }
  }

  /** The text that a failed attempt leaves at its receiver, none counting as empty. */
  predicate Left(r: Response, text: string) {
    match r.error case Some(message) => text == message case None => text == ""
  }

  /**
   What a delivery leaves in its receiver's record besides the counters: the time of its last report, and the
   error of the last attempt that failed, which success does not clear.
   */
  lemma {:induction false} DeliveryLeaves(
      t: Table, id: string, respond: nat -> Response, clock: nat -> int, attempts: nat)
    requires id in t && attempts > 0 && forall k | 1 <= k < attempts :: !respond(k).success
    ensures var s := ReportAll(t, id, respond, clock, attempts);
            && id in s && s[id].metadata.updatedAt == clock(attempts)
            && s[id].metadata.createdAt == t[id].metadata.createdAt
            && s[id].metadata.lastEventAt == t[id].metadata.lastEventAt
            && (!respond(attempts).success ==> Left(respond(attempts), LastError(s[id])))
            && (respond(attempts).success && attempts > 1 ==> Left(respond(attempts - 1), LastError(s[id])))
            && (respond(attempts).success && attempts == 1 ==> LastError(s[id]) == LastError(t[id]))
  {
    if attempts == 1 {
      assert ReportAll(t, id, respond, clock, 0) == t;
    } else {
      DeliveryLeaves(t, id, respond, clock, attempts - 1);
    }
  }

  lemma ReportAllStep(
      t: Table, before: Table, after: Table, id: string, respond: nat -> Response, clock: nat -> int, k: nat)
    requires k > 0 && before == ReportAll(t, id, respond, clock, k - 1)
    requires after == Report(before, id, respond(k), clock(k))
    ensures after == ReportAll(t, id, respond, clock, k)
  {
  }

  function Verdict(d: EventDelivery): int {
    if d.status == Delivered then 1 else 0
  }

  /** One round: what an answer makes of a delivery that is under way. */
  lemma RoundKeeps(
      p: RetryPolicy, respond: nat -> Response, cancelled: nat -> bool, d: EventDelivery, waits: seq<int>, backoff: int)
    requires Underway(p, respond, cancelled, d, waits, backoff)
    ensures var k := d.attempt + 1;
            var noted := Noted(d, k, respond(k));
            if respond(k).success then Finished(p, respond, cancelled, noted.(status := Delivered), waits)
            else if k > p.maxRetries then Finished(p, respond, cancelled, noted.(status := Abandoned), waits)
            else if cancelled(k) then
              Finished(p, respond, cancelled, noted.(status := Abandoned), waits + [backoff])
            else
              Underway(p, respond, cancelled, noted, waits + [backoff],
                       NextInterval(backoff, p.maxInterval, p.multiplier))
  {
  }

  class EventDistributor {
    const registry: MemoryRegistry
    const policy: RetryPolicy
    var deliveriesAttempted: int
    var deliveriesSucceeded: int
    var deliveriesFailed: int

    constructor (registry: MemoryRegistry, policy: Option<RetryPolicy>)
      ensures this.registry == registry
      ensures this.policy == if policy.Some? then policy.value else DEFAULT_POLICY
      ensures deliveriesAttempted == deliveriesSucceeded == deliveriesFailed == 0
    {
      this.registry := registry;
      this.policy := match policy case Some(p) => p case None => DEFAULT_POLICY;
      deliveriesAttempted, deliveriesSucceeded, deliveriesFailed := 0, 0, 0;
    }

    /** The second routing decision, on a copy of the receiver. */
    method ShouldDeliver(receiver: ReceiverObject, e: SecurityEvent) returns (yes: bool)
      requires receiver.Valid()
      ensures yes <==> DistributorAccepts(receiver.value, e)
    {
      var matched := false;
      if receiver.eventTypes != null {
        for i := 0 to receiver.eventTypes.Length
          invariant !matched
          invariant WILDCARD !in receiver.eventTypes[..i] && e.typ !in receiver.eventTypes[..i]
        {
          if receiver.eventTypes[i] == WILDCARD || receiver.eventTypes[i] == e.typ {
            matched := true;
            break;
          }
        }
      }
      if !matched {
        return false;
      }
      yes := receiver.MatchesFilters(e);
    }

    /** The copy to deliver to for one target, or null. */
    method Accept(target: string, e: SecurityEvent) returns (receiver: ReceiverObject?)
      requires registry.Valid()
      ensures receiver != null <==> Deliverable(registry.Table(), target, e)
      ensures receiver != null ==> receiver.IsCopyOf(registry.Table(), target)
    {
      var found := registry.Get(target);
      if found.Err? {
        return null;
      }
      var accepted := ShouldDeliver(found.value, e);
      if !accepted || found.value.delivery.channel != WEBHOOK {
        return null;
      }
      return found.value;
    }

    /** Deliveries are started for exactly the deliverable targets, in order; there is no failure. */
    method DistributeToReceivers(msg: Message) returns (failed: bool, spawned: seq<ReceiverObject>)
      requires registry.Valid()
      ensures !failed
      ensures |spawned| == |Spawned(registry.Table(), msg.targets, msg.event)|
      ensures forall i | 0 <= i < |spawned| ::
                spawned[i].value == Spawned(registry.Table(), msg.targets, msg.event)[i]
    {
      ghost var t := registry.Table();
      spawned := [];
      for i := 0 to |msg.targets|
        modifies {}
        invariant |spawned| == |Spawned(t, msg.targets[..i], msg.event)|
        invariant forall j | 0 <= j < |spawned| :: spawned[j].value == Spawned(t, msg.targets[..i], msg.event)[j]
      {
        assert msg.targets[..i + 1][..i] == msg.targets[..i];
        var receiver := Accept(msg.targets[i], msg.event);
        if receiver != null {
          spawned := spawned + [receiver];
        }
      }
      assert msg.targets[..|msg.targets|] == msg.targets;
      failed := false;
    }

    /** Count one attempt and its verdict, here and at the receiver. */
    method Count(receiverId: string, r: Response, now: int)
      requires registry.Valid() && (this as object) !in registry.Repr
      modifies this, registry.receivers.Values
      ensures registry.Valid() && registry.receivers == old(registry.receivers) && registry.Repr == old(registry.Repr)
      ensures registry.Table() == Report(old(registry.Table()), receiverId, r, now)
      ensures deliveriesAttempted == old(deliveriesAttempted) + 1
      ensures deliveriesSucceeded == old(deliveriesSucceeded) + if r.success then 1 else 0
      ensures deliveriesFailed == old(deliveriesFailed) + if r.success then 0 else 1
    {
      deliveriesAttempted := deliveriesAttempted + 1;
      if r.success {
        deliveriesSucceeded := deliveriesSucceeded + 1;
        var _ := registry.IncrementEventDelivered(receiverId, now);
      } else {
        deliveriesFailed := deliveriesFailed + 1;
        var _ := registry.IncrementEventFailed(receiverId, ErrorText(r), now);
      }
    }

    /** One delivery by itself; `waits` lists the waits it began. */
    method PerformDelivery(
        receiverId: string, eventId: string, respond: nat -> Response, cancelled: nat -> bool, clock: nat -> int)
      returns (delivery: EventDelivery, waits: seq<int>)
      requires registry.Valid() && (this as object) !in registry.Repr
      modifies this, registry.receivers.Values
      ensures registry.Valid()
      ensures delivery.receiverId == receiverId && delivery.eventId == eventId
      ensures Finished(policy, respond, cancelled, delivery, waits)
      ensures registry.Table() == ReportAll(old(registry.Table()), receiverId, respond, clock, delivery.attempt)
      ensures deliveriesAttempted == old(deliveriesAttempted) + delivery.attempt
      ensures var ok := if delivery.status == Delivered then 1 else 0;
              && deliveriesSucceeded == old(deliveriesSucceeded) + ok
              && deliveriesFailed == old(deliveriesFailed) + delivery.attempt - ok
    {
      delivery, waits := NewDelivery(receiverId, eventId), [];
      var backoff, done := policy.initialInterval, policy.maxRetries < 0;
      ghost var t := registry.Table();
      while !done
        invariant registry.Valid() && registry.receivers == old(registry.receivers)
        invariant registry.Repr == old(registry.Repr)
        invariant registry.Table() == ReportAll(t, receiverId, respond, clock, delivery.attempt)
        invariant deliveriesAttempted == old(deliveriesAttempted) + delivery.attempt
        invariant deliveriesSucceeded == old(deliveriesSucceeded) + Verdict(delivery)
        invariant deliveriesFailed == old(deliveriesFailed) + delivery.attempt - Verdict(delivery)
        invariant delivery.receiverId == receiverId && delivery.eventId == eventId
        invariant if done then Finished(policy, respond, cancelled, delivery, waits)
                  else Underway(policy, respond, cancelled, delivery, waits, backoff)
        decreases !done, policy.maxRetries + 1 - delivery.attempt
      {
        var attempt := delivery.attempt + 1;
        ghost var before := registry.Table();
        Count(receiverId, respond(attempt), clock(attempt));
        ReportAllStep(t, before, registry.Table(), receiverId, respond, clock, attempt);
        RoundKeeps(policy, respond, cancelled, delivery, waits, backoff);
        delivery := Noted(delivery, attempt, respond(attempt));
        if respond(attempt).success {
          done, delivery := true, delivery.(status := Delivered);
        } else if attempt <= policy.maxRetries {
          waits := waits + [backoff];
          if cancelled(attempt) {
            done, delivery := true, delivery.(status := Abandoned);
          } else {
            backoff := NextInterval(backoff, policy.maxInterval, policy.multiplier);
          }
        } else {
          done, delivery := true, delivery.(status := Abandoned);
        }
      }
    }
  }
}
