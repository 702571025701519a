/** The broker: registering receivers, and its way with one event: select, count at each, publish once. */
module Broker {
  import opened Wrappers
  import opened Sequences
  import opened Models
  import opened ReceiverTable
  import opened Registry
  import opened Routing
  import opened PubSub

  /** The table after counting an event at the first `n` targets. */
  function CountAtAll(t: Table, targets: seq<string>, clock: nat -> int, n: nat): Table
    requires n <= |targets|
  {
    if n == 0 then t else CountReceived(CountAtAll(t, targets, clock, n - 1), targets[n - 1], clock(n - 1))
  }

  /** The record of `id` in `s` is that in `t` with the event counted, or not. */
  ghost predicate CountedOnce(t: Table, s: Table, id: string, counted: bool)
    requires id in t && id in s
  {
    && Received(s[id]) == Received(t[id]) + (if counted then 1 else 0)
    && Delivered(s[id]) == Delivered(t[id]) && Failed(s[id]) == Failed(t[id])
    && s[id].(metadata := t[id].metadata) == t[id]
  }

  /** Counting raises every target's count by one, nobody else's, and no setting changes. */
  lemma {:induction false} CountAtAllCounts(
      urlOk: string -> bool, t: Table, targets: seq<string>, clock: nat -> int, n: nat)
    requires Consistent(urlOk, t) && NoDuplicates(targets) && n <= |targets|
    ensures var s := CountAtAll(t, targets, clock, n);
            && Consistent(urlOk, s) && s.Keys == t.Keys
            && forall id {:trigger CountedOnce(t, s, id, id in targets[..n])} | id in t ::
                 CountedOnce(t, s, id, id in targets[..n])
  {
    if n == 0 {
    } else {
      CountAtAllCounts(urlOk, t, targets, clock, n - 1);
      var before := CountAtAll(t, targets, clock, n - 1);
      var s := CountAtAll(t, targets, clock, n);
      CountingKeepsConsistent(urlOk, before, targets[n - 1], "", clock(n - 1));
      forall id | id in t
        ensures CountedOnce(t, s, id, id in targets[..n])
      {
        assert CountedOnce(t, before, id, id in targets[..n - 1]);
        FrontGrows(targets, n, id);
      }
    }
  }

  lemma FrontGrows(targets: seq<string>, n: nat, id: string)
    requires NoDuplicates(targets) && 0 < n <= |targets|
    ensures id in targets[..n] <==> id in targets[..n - 1] || id == targets[n - 1]
    ensures targets[n - 1] !in targets[..n - 1]
  {
    assert targets[..n] == targets[..n - 1] + [targets[n - 1]];
  }

  /** Counting does not change who is selected. */
  lemma SameSettingsSameSelection(t: Table, s: Table, e: SecurityEvent, ids: seq<string>)
    requires SettingsEqual(t, s) && IsSelection(t, e, ids)
    ensures IsSelection(s, e, ids)
  {
    forall id | id in t
      ensures RegistryAccepts(s[id], e) <==> RegistryAccepts(t[id], e)
    {
      assert s[id].(metadata := t[id].metadata) == t[id];
    }
  }

  /**
     Publishing and distributing agree: handled against the registry it was published from, a message
     starts one delivery for every target.
   */
  lemma EveryTargetIsDelivered(
      urlOk: string -> bool, t: Table, e: SecurityEvent, targets: seq<string>, clock: nat -> int)
    requires Consistent(urlOk, t) && IsSelection(t, e, targets)
    ensures |Spawned(CountAtAll(t, targets, clock, |targets|), targets, e)| == |targets|
  {
    CountAtAllCounts(urlOk, t, targets, clock, |targets|);
    var s := CountAtAll(t, targets, clock, |targets|);
    forall id | id in t
      ensures s[id].(metadata := t[id].metadata) == t[id]
    {
      assert CountedOnce(t, s, id, id in targets[..|targets|]);
    }
    SameSettingsSameSelection(t, s, e, targets);
    SelectionIsDelivered(urlOk, s, e, targets);
  }

  lemma NamedAsListed(urlOk: string -> bool, t: Table, rs: seq<ReceiverObject>, ids: seq<string>)
    requires Consistent(urlOk, t) && |rs| == |ids| && forall i | 0 <= i < |rs| :: rs[i].IsCopyOf(t, ids[i])
    ensures forall i | 0 <= i < |rs| :: rs[i].id == ids[i]
  {
    forall i | 0 <= i < |rs|
      ensures rs[i].id == ids[i]
    {
      assert EntryOk(urlOk, t, ids[i]) && rs[i].IsCopyOf(t, ids[i]);
    }
  }

  lemma RegisterChecked(urlOk: string -> bool, t: Table, r: Receiver, now: int)
    ensures Check(urlOk, r).Ok? ==>
              ReceiverTable.Register(urlOk, t, Checked(urlOk, r), now) == ReceiverTable.Register(urlOk, t, r, now)
  {
    CheckTwice(urlOk, r);
  }

  function Failure<T>(r: Result<T, RegistryError>): Option<RegistryError> {
    match r case Ok(_) => None case Err(e) => Some(e)
  }

  class Broker {
    const registry: MemoryRegistry
    const client: MockClient

    constructor (registry: MemoryRegistry, client: MockClient)
      ensures this.registry == registry && this.client == client
    {
      this.registry, this.client := registry, client;
    }

    /** Registry and topic are sound and share no object. */
    ghost predicate Valid()
      reads this, registry, registry.Repr, client, client.topics.Values
    {
      && registry.Valid() && client.Valid()
      && client !in registry.Repr && client.topics.Values !! registry.Repr
    }

    /** No memory of the receiver is part of the topic. */
    ghost predicate Apart(receiver: ReceiverObject)
      reads this, receiver, client
    {
      client !in receiver.Footprint() && client.topics.Values !! receiver.Footprint()
    }

    /** The request as a receiver, on memory that was not there but for what the request brings. */
    method ReceiverFrom(request: ReceiverRequest, now: int) returns (receiver: ReceiverObject)
      requires Valid()
      ensures Valid() && registry.Table() == old(registry.Table()) && Apart(receiver)
      ensures receiver.Valid() && receiver.value == FromRequest(request.Asked(), now)
      ensures fresh(receiver) && fresh(receiver.Footprint() - request.Parts())
    {
      receiver := request.ToReceiver(now);
      registry.Isolated();
    }

    method ValidateNew(receiver: ReceiverObject) returns (invalid: Option<ValidationError>)
      requires Valid() && receiver.Valid() && receiver !in registry.Repr
      modifies receiver`auth, receiver`value
      ensures Valid() && registry.Table() == old(registry.Table())
      ensures receiver.Valid() && receiver.value == Checked(registry.urlOk, old(receiver.value))
      ensures invalid ==
              match Check(registry.urlOk, old(receiver.value)) case Ok(_) => None case Err(e) => Some(e)
    {
      invalid := receiver.Validate(registry.urlOk);
      registry.Isolated();
    }

    /** Validation by the broker and registration, which validates again; the topic stays apart. */
    method Enroll(receiver: ReceiverObject, now: int) returns (error: Option<RegistryError>)
      requires Valid() && receiver.Valid() && Apart(receiver) && receiver !in registry.Repr
      modifies registry`receivers, registry`Repr, receiver
      ensures Valid() && fresh(registry.Repr - old(registry.Repr) - old(receiver.Footprint()))
      ensures Outcome(ReceiverTable.Register(registry.urlOk, old(registry.Table()), old(receiver.value), now),
                      old(registry.Table()), error, registry.Table())
      ensures error == None ==> registry.receivers == old(registry.receivers)[old(receiver.id) := receiver]
    {
      RegisterChecked(registry.urlOk, registry.Table(), receiver.value, now);
      var invalid := ValidateNew(receiver);
      if invalid.Some? {
        return Some(Invalid(invalid.value));
      }
      error := registry.Register(receiver, now);
    }

    method Reenroll(receiver: ReceiverObject, now: int) returns (error: Option<RegistryError>)
      requires Valid() && receiver.Valid() && Apart(receiver)
      modifies registry`receivers, registry`Repr, receiver
      ensures Valid() && fresh(registry.Repr - old(registry.Repr) - old(receiver.Footprint()))
      ensures Outcome(ReceiverTable.Update(registry.urlOk, old(registry.Table()), old(receiver.value), now),
                      old(registry.Table()), error, registry.Table())
      ensures error == None ==> registry.receivers == old(registry.receivers)[old(receiver.id) := receiver]
    {
      error := registry.Update(receiver, now);
    }

    /**
     A request made into a receiver and registered. The broker validates before the registry does, with the
     same verdict; afterwards it can process events for the newcomer.
     */
    method RegisterReceiver(request: ReceiverRequest, now: int) returns (r: Result<ReceiverObject, RegistryError>)
      requires Valid()
      modifies registry`receivers, registry`Repr
      ensures Valid() && fresh(registry.Repr - old(registry.Repr) - request.Parts())
      ensures Outcome(ReceiverTable.Register(
                        registry.urlOk, old(registry.Table()), FromRequest(old(request.Asked()), now), now),
                      old(registry.Table()), Failure(r), registry.Table())
      ensures r.Ok? ==> registry.receivers == old(registry.receivers)[request.id := r.value]
    {
      var receiver := ReceiverFrom(request, now);
      var error := Enroll(receiver, now);
      return if error.Some? then Err(error.value) else Ok(receiver);
    }

    method ReplaceFrom(request: ReceiverRequest, now: int) returns (r: Result<ReceiverObject, RegistryError>)
      requires Valid()
      modifies registry`receivers, registry`Repr
      ensures Valid() && fresh(registry.Repr - old(registry.Repr) - request.Parts())
      ensures Outcome(ReceiverTable.Update(
                        registry.urlOk, old(registry.Table()), FromRequest(old(request.Asked()), now), now),
                      old(registry.Table()), Failure(r), registry.Table())
      ensures r.Ok? ==> registry.receivers == old(registry.receivers)[request.id := r.value]
    {
      var receiver := ReceiverFrom(request, now);
      var error := Reenroll(receiver, now);
      return if error.Some? then Err(error.value) else Ok(receiver);
    }

    /** The copy that is fetched is looked at and dropped. */
    method Exists(id: string) returns (found: bool)
      requires Valid()
      ensures Valid() && registry.Table() == old(registry.Table())
      ensures found <==> id in registry.Table()
    {
      var existing := registry.Get(id);
      registry.Isolated();
      found := existing.Ok?;
    }

    /** An update of a receiver that is not there is refused before it is validated. */
    method UpdateReceiver(request: ReceiverRequest, now: int) returns (r: Result<ReceiverObject, RegistryError>)
      requires Valid()
      modifies registry`receivers, registry`Repr
      ensures Valid() && fresh(registry.Repr - old(registry.Repr) - request.Parts())
      ensures request.id !in old(registry.Table()) ==>
                registry.Table() == old(registry.Table()) && r == Err(NotFound(request.id))
      ensures request.id in old(registry.Table()) ==>
                Outcome(ReceiverTable.Update(
                          registry.urlOk, old(registry.Table()), FromRequest(old(request.Asked()), now), now),
                        old(registry.Table()), Failure(r), registry.Table())
      ensures r.Ok? ==> registry.receivers == old(registry.receivers)[request.id := r.value]
    {
      var found := Exists(request.id);
      if !found {
        return Err(NotFound(request.id));
      }
      r := ReplaceFrom(request, now);
    }

    /** `clock` gives the times of the counter updates. */
    method CountReceivers(targets: seq<string>, clock: nat -> int)
      requires registry.Valid()
      modifies registry.receivers.Values
      ensures registry.Valid() && registry.receivers == old(registry.receivers) && registry.Repr == old(registry.Repr)
      ensures registry.Table() == CountAtAll(old(registry.Table()), targets, clock, |targets|)
    {
      ghost var t := registry.Table();
      for i := 0 to |targets|
        invariant registry.Valid() && registry.receivers == old(registry.receivers)
        invariant registry.Repr == old(registry.Repr)
        invariant registry.Table() == CountAtAll(t, targets, clock, i)
      {
        var _ := registry.IncrementEventReceived(targets[i], clock(i));
      }
    }

    /** IDs of the selected receivers, in the order selection found them. */
    method SelectTargets(e: SecurityEvent) returns (targets: seq<string>)
      requires registry.Valid()
      ensures IsSelection(registry.Table(), e, targets)
    {
      var receivers;
      ghost var ids;
      receivers, ids := registry.FilterReceivers(e);
      targets := [];
      NamedAsListed(registry.urlOk, registry.Table(), receivers, ids);
      for i := 0 to |receivers|
        modifies {}
        invariant targets == ids[..i]
      {
        targets := targets + [receivers[i].id];
      }
      assert targets == ids;
    }

    /**
     An event nobody subscribes to leaves everything as it was. Otherwise it is counted once at every
     selected receiver, and one message with exactly these targets is appended to the topic.
     */
    method ProcessSecurityEvent(e: SecurityEvent, messageId: string, now: int, clock: nat -> int)
      returns (targets: seq<string>)
      requires Valid()
      modifies registry.receivers.Values, client`topics, client.topics.Values
      ensures Valid() && registry.receivers == old(registry.receivers)
      ensures fresh(client.topics.Values - old(client.topics.Values))
      ensures IsSelection(old(registry.Table()), e, targets)
      ensures registry.Table() == CountAtAll(old(registry.Table()), targets, clock, |targets|)
      ensures var topic := client.topicName;
              client.Log(topic) == old(client.Log(topic)) +
                if targets == [] then []
                else [ToInternalMessage(e, targets, client.hubInstanceId, messageId, now)]
      ensures forall name | name != client.topicName :: client.Log(name) == old(client.Log(name))
    {
      targets := SelectTargets(e);
      if targets != [] {
        CountAndPublish(e, targets, messageId, now, clock);
      }
    }

    method CountAndPublish(e: SecurityEvent, targets: seq<string>, messageId: string, now: int, clock: nat -> int)
      requires Valid()
      modifies registry.receivers.Values, client`topics, client.topics.Values
      ensures Valid() && registry.receivers == old(registry.receivers)
      ensures fresh(client.topics.Values - old(client.topics.Values))
      ensures registry.Table() == CountAtAll(old(registry.Table()), targets, clock, |targets|)
      ensures client.Log(client.topicName) ==
                old(client.Log(client.topicName)) +
                [ToInternalMessage(e, targets, client.hubInstanceId, messageId, now)]
      ensures forall name | name != client.topicName :: client.Log(name) == old(client.Log(name))
    {
      CountReceivers(targets, clock);
      Publish(e, targets, messageId, now);
    }

    /** Publishing leaves the registry alone. */
    method Publish(e: SecurityEvent, targets: seq<string>, messageId: string, now: int)
      requires Valid()
      modifies client`topics, client.topics.Values
      ensures Valid() && registry.Table() == old(registry.Table()) && registry.receivers == old(registry.receivers)
      ensures fresh(client.topics.Values - old(client.topics.Values))
      ensures client.Log(client.topicName) ==
                old(client.Log(client.topicName)) +
                [ToInternalMessage(e, targets, client.hubInstanceId, messageId, now)]
      ensures forall name | name != client.topicName :: client.Log(name) == old(client.Log(name))
    {
      client.PublishEvent(e, targets, messageId, now);
      registry.Isolated();
    }
  }
}
