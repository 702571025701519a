/**
 The in-memory registry as the hub runs it: receiver objects on the heap, holding slices and a map of
 their own, in a map that the registry mutates. Every operation refines its counterpart on tables.
 */
module Registry {
  import opened Wrappers
  import opened Sequences
  import opened Sums
  import opened Models
  import opened ReceiverTable

  class TagMap {
    var entries: map<string, string>

    constructor (entries: map<string, string>)
      ensures this.entries == entries
    {
      this.entries := entries;
    }
  }

  ghost function Items<T>(a: array?<T>): seq<T>
    reads a
  {
    if a == null then [] else a[..]
  }

  method CopySlice<T>(a: array?<T>) returns (b: array?<T>)
    ensures b == null <==> a == null
    ensures b != null ==> fresh(b)
    ensures Items(b) == Items(a)
  {
    if a == null {
      return null;
    }
    b := new T[a.Length](i requires 0 <= i < a.Length reads a => a[i]);
  }

  /** Nothing of `r` was there in the old state. */
  twostate predicate IsFresh(new r: ReceiverObject)
    reads r
  {
    && fresh(r)
    && (r.eventTypes != null ==> fresh(r.eventTypes)) && (r.scopes != null ==> fresh(r.scopes))
    && (r.filters != null ==> fresh(r.filters)) && (r.tags != null ==> fresh(r.tags))
  }

  /** A receiver object; a null slice or map is Go's nil. */
  class ReceiverObject {
    var id: string
    var name: string
    var description: string
    var webhookUrl: string
    var eventTypes: array?<string>
    var delivery: DeliveryConfig
    var auth: Auth
    var scopes: array?<string>
    var filters: array?<EventFilter>
    var retry: RetryConfig
    var status: string
    var metadata: Metadata
    var tags: TagMap?

    /** The record the object holds. */
    ghost var value: Receiver

    /** Everything reachable from the object, and perhaps null. */
    ghost function Footprint(): set<object?>
      reads this
    {
      {this, eventTypes, scopes, filters, tags}
    }

    ghost predicate Valid()
      reads Footprint()
    {
      value == Receiver(
        id, name, description, webhookUrl, Items(eventTypes), delivery, auth, Items(scopes), Items(filters),
        retry, status, metadata, if tags == null then map[] else tags.entries)
    }

    ghost predicate IsCopyOf(t: Table, id: string)
      reads Footprint()
    {
      id in t && Valid() && value == t[id]
    }

    constructor (id: string, name: string, description: string, webhookUrl: string, delivery: DeliveryConfig,
                 auth: Auth, retry: RetryConfig, status: string, metadata: Metadata,
                 eventTypes: array?<string>, scopes: array?<string>, filters: array?<EventFilter>, tags: TagMap?)
      ensures Valid() && Footprint() == {this, eventTypes, scopes, filters, tags}
      ensures value == Receiver(id, name, description, webhookUrl, Items(eventTypes), delivery, auth,
                                Items(scopes), Items(filters), retry, status, metadata,
                                if tags == null then map[] else tags.entries)
    {
      this.id, this.name, this.description, this.webhookUrl := id, name, description, webhookUrl;
      this.delivery, this.auth, this.retry, this.status, this.metadata := delivery, auth, retry, status, metadata;
      this.eventTypes, this.scopes, this.filters, this.tags := eventTypes, scopes, filters, tags;
      value := Receiver(id, name, description, webhookUrl, Items(eventTypes), delivery, auth, Items(scopes),
                        Items(filters), retry, status, metadata, if tags == null then map[] else tags.entries);
    }

    method Validate(urlOk: string -> bool) returns (error: Option<ValidationError>)
      requires Valid()
      modifies this`auth, this`value
      ensures Valid() && value == Checked(urlOk, old(value))
      ensures error == match Check(urlOk, old(value)) case Ok(_) => None case Err(e) => Some(e)
    {
      if id == "" {
        return Some(MissingId);
      }
      if eventTypes == null || eventTypes.Length == 0 {
        return Some(NoEventTypes);
      }
      if delivery.channel == WEBHOOK {
        if webhookUrl == "" {
          return Some(MissingWebhook);
        }
        if !urlOk(webhookUrl) {
          return Some(BadWebhook);
        }
      } else {
        return Some(BadChannel(delivery.channel));
      }
      error := ValidateAuth();
    }

    method ValidateAuth() returns (error: Option<ValidationError>)
      requires Valid()
      modifies this`auth, this`value
      ensures Valid()
      ensures match CheckAuth(old(value.auth))
              case Ok(a) => error == None && value == old(value).(auth := a)
              case Err(e) => error == Some(e) && value == old(value)
    {
      if auth.typ == "none" || auth.typ == "" {
      } else if auth.typ == "bearer" {
        if auth.token == "" {
          return Some(IncompleteAuth(auth.typ));
        }
      } else if auth.typ == "oauth2" {
        if auth.clientId == "" || auth.clientSecret == "" || auth.tokenUrl == "" {
          return Some(IncompleteAuth(auth.typ));
        }
      } else if auth.typ == "hmac" {
        if auth.secret == "" {
          return Some(IncompleteAuth(auth.typ));
        }
        if auth.algorithm == "" {
          auth := auth.(algorithm := "sha256");
          value := value.(auth := auth);
        }
      } else {
        return Some(BadAuthType(auth.typ));
      }
      return None;
    }

    method SetDefaults(now: int)
      requires Valid()
      modifies this`status, this`delivery, this`auth, this`retry, this`metadata, this`tags, this`value
      ensures Valid() && value == WithDefaults(old(value), now)
      ensures tags != null && (tags == old(tags) || fresh(tags))
    {
      EnsureTags();
      SetSettings(DefaultStatus(status), DefaultDelivery(delivery), DefaultAuth(auth), DefaultRetry(retry));
      SetMetadata(DefaultMetadata(metadata, now));
    }

    method SetSettings(status: string, delivery: DeliveryConfig, auth: Auth, retry: RetryConfig)
      requires Valid()
      modifies this`status, this`delivery, this`auth, this`retry, this`value
      ensures Valid()
      ensures value == old(value).(status := status, delivery := delivery, auth := auth, retry := retry)
    {
      this.status, this.delivery, this.auth, this.retry := status, delivery, auth, retry;
      value := value.(status := status, delivery := delivery, auth := auth, retry := retry);
    }

    method EnsureTags()
      requires Valid()
      modifies this`tags
      ensures Valid() && value == old(value)
      ensures tags != null && (tags == old(tags) || fresh(tags))
    {
      if tags == null {
        tags := new TagMap(map[]);
      }
    }

    /** What registration writes into the object. */
    method Admit(now: int)
      requires Valid()
      modifies this`status, this`delivery, this`auth, this`retry, this`metadata, this`tags, this`value
      ensures Valid() && value == Registered(old(value), now)
      ensures tags != null && (tags == old(tags) || fresh(tags))
    {
      SetDefaults(now);
      SetMetadata(metadata.(createdAt := now, updatedAt := now));
    }

    method SetMetadata(meta: Metadata)
      requires Valid()
      modifies this`metadata, this`value
      ensures Valid() && value == old(value).(metadata := meta)
    {
      metadata := meta;
      value := value.(metadata := meta);
    }

    /** Whether the event type is listed by name. */
    method Subscribes(typ: string) returns (found: bool)
      requires Valid()
      ensures found <==> typ in value.eventTypes
    {
      if eventTypes == null {
        return false;
      }
      for i := 0 to eventTypes.Length
        invariant typ !in eventTypes[..i]
      {
        if eventTypes[i] == typ {
          return true;
        }
      }
      return false;
    }

    method MatchesFilters(e: SecurityEvent) returns (all: bool)
      requires Valid()
      ensures all <==> AllMatch(value.filters, e)
    {
      if filters == null || filters.Length == 0 {
        return true;
      }
      for i := 0 to filters.Length
        invariant AllMatch(filters[..i], e)
      {
        if !Matches(filters[i], e) {
          return false;
        }
        assert filters[..i + 1] == filters[..i] + [filters[i]];
      }
      assert filters[..filters.Length] == filters[..];
      return true;
    }

    /** A deep copy: the same record on fresh memory. */
    method Copy() returns (c: ReceiverObject)
      requires Valid()
      ensures c.Valid() && c.value == value
      ensures IsFresh(c)
    {
      var e := CopySlice(eventTypes);
      var s := CopySlice(scopes);
      var f := CopySlice(filters);
      var t: TagMap? := null;
      if tags != null {
        t := new TagMap(tags.entries);
      }
      c := new ReceiverObject(id, name, description, webhookUrl, delivery, auth, retry, status, metadata, e, s, f, t);
    }
  }

  /** A registration or update as it comes in; its lists and tags become those of the receiver made from it. */
  datatype ReceiverRequest = ReceiverRequest(
    id: string, name: string, description: string, webhookUrl: string, delivery: DeliveryConfig, auth: Auth,
    retry: RetryConfig, eventTypes: array?<string>, scopes: array?<string>, filters: array?<EventFilter>,
    tags: TagMap?)
  {
    ghost function Asked(): Receiver
      reads eventTypes, scopes, filters, tags
    {
      Receiver(id, name, description, webhookUrl, Items(eventTypes), delivery, auth, Items(scopes), Items(filters),
               retry, "", BLANK_METADATA, if tags == null then map[] else tags.entries)
    }

    ghost function Parts(): set<object?> {
      {eventTypes as object?, scopes, filters, tags}
    }

    method ToReceiver(now: int) returns (receiver: ReceiverObject)
      ensures fresh(receiver) && fresh(receiver.Footprint() - Parts())
      ensures receiver.Valid() && receiver.value == FromRequest(Asked(), now)
    {
      receiver := new ReceiverObject(
        id, name, description, webhookUrl, delivery, auth, retry, "", BLANK_METADATA,
        eventTypes, scopes, filters, tags);
      receiver.SetDefaults(now);
    }
  }

  /** A call that reports `error` and leaves the table `after` does what `result` says. */
  ghost predicate Outcome(
    result: Result<Table, RegistryError>, before: Table, error: Option<RegistryError>, after: Table)
  {
    match result
    case Ok(t) => error == None && after == t
    case Err(e) => error == Some(e) && after == before
  }

  class MemoryRegistry {
    const urlOk: string -> bool
    var receivers: map<string, ReceiverObject>

    /** The registry, its objects and what they hold, and perhaps null. */
    ghost var Repr: set<object?>

    constructor (urlOk: string -> bool)
      ensures Valid() && Table() == map[] && this.urlOk == urlOk && Repr == {this}
    {
      this.urlOk := urlOk;
      receivers := map[];
      Repr := {this};
    }

    ghost function Table(): Table
      reads this, receivers.Values
    {
      map id | id in receivers :: receivers[id].value
    }

    ghost predicate Valid()
      reads this, Repr
    {
      Sound() && Consistent(urlOk, Table())
    }

    /** The heap side of validity: known objects, each holding its record. */
    ghost predicate Sound()
      reads this, Repr
    {
      && this in Repr && receivers.Values <= Repr
      && forall id {:trigger Holding(id)} | id in receivers :: Holding(id)
    }

    ghost predicate Holding(id: string)
      requires id in receivers
      reads this, Repr
    {
      receivers[id] in Repr && receivers[id].Footprint() <= Repr && receivers[id].Valid()
    }

    lemma Entry(id: string)
      requires Valid() && id in receivers
      ensures receivers[id].Valid() && receivers[id].value == Table()[id]
      ensures receivers[id].metadata == Table()[id].metadata && receivers[id].status == Table()[id].status
    {
      assert Holding(id);
    }

    /** A sound heap whose entries are those of a consistent table is a valid registry. */
    lemma Holds(t: Table)
      requires Sound() && t.Keys == receivers.Keys && Consistent(urlOk, t)
      requires forall id | id in t :: receivers[id].value == t[id]
      ensures Valid() && Table() == t
    {
      assert Table() == t;
    }

    /**
     Whatever happens outside the representation leaves the registry valid and its table unchanged. The
     copies that Get, List and FilterReceivers return are fresh, so a caller may do as it likes with them.
     */
    twostate lemma Isolated()
      requires old(Valid()) && forall x: object | x in old(Repr) :: unchanged(x)
      ensures Valid() && Table() == old(Table())
    {
      assert unchanged(this);
      forall id | id in receivers
        ensures Holding(id)
      {
        assert old(Holding(id));
      }
      Holds(old(Table()));
    }

    /**
     A change to one receiver object, stored or not, shows in the table under that object's ID if it is
     stored there, and nowhere else.
     */
    twostate lemma Touched(receiver: ReceiverObject)
      requires old(Valid()) && unchanged(this) && receiver.Valid()
      requires forall x: object | x in old(Repr) && x != receiver :: unchanged(x)
      requires receiver in receivers.Values ==>
                 && receiver.id == old(receiver.id) && receiver.Footprint() <= Repr
                 && Check(urlOk, receiver.value) == Ok(receiver.value)
      ensures Valid()
      ensures receiver !in receivers.Values ==> Table() == old(Table())
      ensures receiver in receivers.Values ==>
                receiver.id in old(Table()) && Table() == old(Table())[receiver.id := receiver.value]
    {
      forall id | id in receivers
        ensures Holding(id)
        ensures if receivers[id] == receiver then id == old(receiver.id) else receivers[id].value == old(Table())[id]
      {
        assert old(Holding(id)) && old(EntryOk(urlOk, Table(), id));
      }
      if receiver in receivers.Values {
        PutKeepsConsistent(urlOk, old(Table()), receiver.value);
        Holds(old(Table())[receiver.id := receiver.value]);
      } else {
        Holds(old(Table()));
      }
    }

    /** A stored object is stored under its own ID and no other. */
    lemma StoredUnderOwnId(receiver: ReceiverObject)
      requires Valid()
      ensures forall id | id in receivers && receivers[id] == receiver :: id == receiver.id
    {
      forall id | id in receivers && receivers[id] == receiver
        ensures id == receiver.id
      {
        assert Holding(id) && EntryOk(urlOk, Table(), id);
      }
    }

    /** Two keys never share a receiver object. */
    lemma ObjectsDiffer(id: string, other: string)
      requires Valid() && id in receivers && other in receivers && id != other
      ensures receivers[id] != receivers[other]
    {
      assert EntryOk(urlOk, Table(), id) && EntryOk(urlOk, Table(), other);
      assert Holding(id) && Holding(other);
    }

    /** Put an object under its ID; the other entries stay as they are. */
    method Store(receiver: ReceiverObject)
      requires Valid() && receiver.Valid() && Consistent(urlOk, Table()[receiver.id := receiver.value])
      modifies this`receivers, this`Repr
      ensures Valid() && Table() == old(Table())[receiver.id := receiver.value]
      ensures receivers == old(receivers)[receiver.id := receiver]
      ensures Repr == old(Repr) + receiver.Footprint()
    {
      ghost var t := Table()[receiver.id := receiver.value];
      Repr := Repr + receiver.Footprint();
      receivers := receivers[receiver.id := receiver];
      forall id | id in receivers
        ensures Holding(id)
      {
        assert id != receiver.id ==> old(Holding(id));
      }
      Holds(t);
    }

    /** The part of registration that runs under the lock, on a validated object. */
    method Insert(receiver: ReceiverObject, now: int) returns (error: Option<RegistryError>)
      requires Valid() && receiver.Valid() && Check(urlOk, receiver.value) == Ok(receiver.value)
      modifies this`receivers, this`Repr, receiver
      ensures Valid() && receiver.Valid() && fresh(Repr - old(Repr) - old(receiver.Footprint()))
      ensures old(receiver.id) in old(Table()) ==>
                && error == Some(AlreadyExists(receiver.id))
                && Table() == old(Table()) && receiver.value == old(receiver.value)
      ensures old(receiver.id) !in old(Table()) ==>
                && error == None
                && Table() == old(Table())[old(receiver.id) := Registered(old(receiver.value), now)]
                && receivers == old(receivers)[old(receiver.id) := receiver]
    {
      if receiver.id in receivers {
        return Some(AlreadyExists(receiver.id));
      }
      ghost var t := Table();
      StoredUnderOwnId(receiver);
      RegisterKeepsConsistent(urlOk, t, receiver.value, now);
      receiver.Admit(now);
      Touched(receiver);
      Store(receiver);
      return None;
    }

    /** Validation of an object that may be a stored one: those pass unchanged. */
    method ValidateAny(receiver: ReceiverObject) returns (invalid: Option<ValidationError>)
      requires Valid() && receiver.Valid()
      modifies receiver`auth, receiver`value
      ensures Valid() && Table() == old(Table())
      ensures receiver.Valid() && receiver.value == Checked(urlOk, old(receiver.value))
      ensures invalid == match Check(urlOk, old(receiver.value)) case Ok(_) => None case Err(e) => Some(e)
    {
      StoredPass(receiver);
      invalid := receiver.Validate(urlOk);
      Touched(receiver);
    }

    lemma StoredPass(receiver: ReceiverObject)
      requires Valid()
      ensures receiver in receivers.Values ==>
                && receiver.id in receivers && receivers[receiver.id] == receiver && receiver.Footprint() <= Repr
                && receiver.value == Table()[receiver.id] && Check(urlOk, receiver.value) == Ok(receiver.value)
    {
      StoredUnderOwnId(receiver);
      if receiver in receivers.Values {
        assert Holding(receiver.id) && EntryOk(urlOk, Table(), receiver.id);
      }
    }

    /**
     The object passed in becomes the stored one. One that is stored already is reported as existing. Nothing
     joins the registry's memory but that object and what it was made of.
     */
    method Register(receiver: ReceiverObject?, now: int) returns (error: Option<RegistryError>)
      requires Valid() && (receiver != null ==> receiver.Valid())
      modifies this`receivers, this`Repr, receiver
      ensures Valid()
      ensures receiver == null ==> error == Some(NilReceiver) && Table() == old(Table()) && Repr == old(Repr)
      ensures receiver != null ==> fresh(Repr - old(Repr) - old(receiver.Footprint()))
      ensures receiver != null ==>
                Outcome(ReceiverTable.Register(urlOk, old(Table()), old(receiver.value), now),
                        old(Table()), error, Table())
      ensures receiver != null && error == None ==> receivers == old(receivers)[old(receiver.id) := receiver]
      ensures receiver != null && error != None ==> receiver.value == Checked(urlOk, old(receiver.value))
    {
      if receiver == null {
        return Some(NilReceiver);
      }
      CheckTwice(urlOk, receiver.value);
      var invalid := ValidateAny(receiver);
      if invalid.Some? {
        return Some(Invalid(invalid.value));
      }
      error := Insert(receiver, now);
    }

    method Unregister(id: string) returns (error: Option<RegistryError>)
      requires Valid()
      modifies this`receivers
      ensures Valid()
      ensures Outcome(ReceiverTable.Unregister(old(Table()), id), old(Table()), error, Table())
    {
      if id !in receivers {
        return Some(NotFound(id));
      }
      ghost var t := Table() - {id};
      RemoveKeepsConsistent(urlOk, Table(), id);
      receivers := receivers - {id};
      forall k | k in receivers
        ensures Holding(k)
      {
        assert old(Holding(k));
      }
      Holds(t);
      return None;
    }

    /** The result is a copy: nothing of it is reachable from the registry. */
    method Get(id: string) returns (r: Result<ReceiverObject, RegistryError>)
      requires Valid()
      ensures r.Ok? <==> id in Table()
      ensures r.Ok? ==> r.value.Valid() && r.value.value == Table()[id] && IsFresh(r.value)
      ensures r.Err? ==> r.error == NotFound(id)
    {
      if id !in receivers {
        return Err(NotFound(id));
      }
      Entry(id);
      var c := receivers[id].Copy();
      return Ok(c);
    }

    /**
     The object passed in becomes the stored one, with the statistics of the one it replaces, which may be
     itself.
     */
    method Update(receiver: ReceiverObject?, now: int) returns (error: Option<RegistryError>)
      requires Valid() && (receiver != null ==> receiver.Valid())
      modifies this`receivers, this`Repr, receiver
      ensures Valid()
      ensures receiver == null ==> error == Some(NilReceiver) && Table() == old(Table()) && Repr == old(Repr)
      ensures receiver != null ==> fresh(Repr - old(Repr) - old(receiver.Footprint()))
      ensures receiver != null ==>
                Outcome(ReceiverTable.Update(urlOk, old(Table()), old(receiver.value), now),
                        old(Table()), error, Table())
      ensures receiver != null && error == None ==> receivers == old(receivers)[old(receiver.id) := receiver]
      ensures receiver != null && error != None ==> receiver.value == Checked(urlOk, old(receiver.value))
    {
      if receiver == null {
        return Some(NilReceiver);
      }
      CheckTwice(urlOk, receiver.value);
      var invalid := ValidateAny(receiver);
      if invalid.Some? {
        return Some(Invalid(invalid.value));
      }
      error := Replace(receiver, now);
    }

    /** The part of an update that runs under the lock, on a validated object. */
    method Replace(receiver: ReceiverObject, now: int) returns (error: Option<RegistryError>)
      requires Valid() && receiver.Valid() && Check(urlOk, receiver.value) == Ok(receiver.value)
      modifies this`receivers, this`Repr, receiver`metadata, receiver`value
      ensures Valid() && receiver.Valid() && fresh(Repr - old(Repr) - old(receiver.Footprint()))
      ensures old(receiver.id) !in old(Table()) ==>
                error == Some(NotFound(receiver.id)) && Table() == old(Table()) && receiver.value == old(receiver.value)
      ensures old(receiver.id) in old(Table()) ==>
                && error == None
                && Table() == old(Table())[receiver.id := Merged(old(Table())[receiver.id], old(receiver.value), now)]
                && receivers == old(receivers)[receiver.id := receiver]
    {
      if receiver.id !in receivers {
        return Some(NotFound(receiver.id));
      }
      ghost var t, merged := Table(), Merged(Table()[receiver.id], receiver.value, now);
      StoredPass(receiver);
      Entry(receiver.id);
      TakeStatistics(receiver, receivers[receiver.id].metadata, now);
      Touched(receiver);
      PutKeepsConsistent(urlOk, t, merged);
      assert Table()[receiver.id := merged] == t[receiver.id := merged];
      Store(receiver);
      return None;
    }

    /** The statistics that an update preserves. */
    method TakeStatistics(receiver: ReceiverObject, was: Metadata, now: int)
      requires receiver.Valid()
      modifies receiver`metadata, receiver`value
      ensures receiver.Valid()
      ensures forall existing: Receiver | existing.metadata == was ::
                receiver.value == Merged(existing, old(receiver.value), now)
    {
      receiver.SetMetadata(receiver.metadata.(
        createdAt := was.createdAt,
        eventsReceived := was.eventsReceived,
        eventsDelivered := was.eventsDelivered,
        eventsFailed := was.eventsFailed,
        lastEventAt := was.lastEventAt,
        updatedAt := now));
    }

    /** Write the metadata of one stored object in place. */
    method PutMetadata(id: string, meta: Metadata)
      requires Valid() && id in receivers
      modifies receivers.Values
      ensures Valid() && Table() == WithMetadata(old(Table()), id, meta)
    {
      ghost var t := Table();
      WithMetadataKeepsConsistent(urlOk, t, id, meta);
      forall other | other in receivers && other != id
        ensures receivers[other] != receivers[id]
      {
        ObjectsDiffer(id, other);
      }
      Entry(id);
      receivers[id].SetMetadata(meta);
      forall k | k in receivers
        ensures Holding(k)
      {
        assert old(Holding(k));
      }
      Holds(WithMetadata(t, id, meta));
    }

    method IncrementEventReceived(id: string, now: int) returns (error: Option<RegistryError>)
      requires Valid()
      modifies receivers.Values
      ensures Valid() && Table() == CountReceived(old(Table()), id, now)
      ensures error == if id in old(Table()) then None else Some(NotFound(id))
    {
      if id !in receivers {
        return Some(NotFound(id));
      }
      var m := receivers[id].metadata;
      Entry(id);
      PutMetadata(id, m.(eventsReceived := m.eventsReceived + 1, lastEventAt := now, updatedAt := now));
      return None;
    }

    method IncrementEventDelivered(id: string, now: int) returns (error: Option<RegistryError>)
      requires Valid()
      modifies receivers.Values
      ensures Valid() && Table() == CountDelivered(old(Table()), id, now)
      ensures error == if id in old(Table()) then None else Some(NotFound(id))
    {
      if id !in receivers {
        return Some(NotFound(id));
      }
      var m := receivers[id].metadata;
      Entry(id);
      PutMetadata(id, m.(eventsDelivered := m.eventsDelivered + 1, updatedAt := now));
      return None;
    }

    method IncrementEventFailed(id: string, message: string, now: int) returns (error: Option<RegistryError>)
      requires Valid()
      modifies receivers.Values
      ensures Valid() && Table() == CountFailed(old(Table()), id, message, now)
      ensures error == if id in old(Table()) then None else Some(NotFound(id))
    {
      if id !in receivers {
        return Some(NotFound(id));
      }
      var m := receivers[id].metadata;
      Entry(id);
      PutMetadata(id, m.(eventsFailed := m.eventsFailed + 1, lastDeliveryError := message, updatedAt := now));
      return None;
    }

    /** Copies of all receivers, in an order the map leaves open; `ids` names them. */
    method List() returns (rs: seq<ReceiverObject>, ghost ids: seq<string>)
      requires Valid()
      ensures |rs| == |ids| && (forall i | 0 <= i < |rs| :: rs[i].IsCopyOf(Table(), ids[i])) && Lists(ids, Table().Keys)
      ensures forall r | r in rs :: IsFresh(r)
    {
      ghost var t := Table();
      rs, ids := [], [];
      var left := receivers.Keys;
      ghost var done: set<string> := {};
      while left != {}
        modifies {}
        invariant done !! left && done + left == receivers.Keys
        invariant |rs| == |ids| && (forall i | 0 <= i < |rs| :: rs[i].IsCopyOf(t, ids[i])) && Lists(ids, done)
        invariant forall r | r in rs :: IsFresh(r)
      {
        var id :| id in left;
        Entry(id);
        var c := receivers[id].Copy();
        AppendCopy(rs, ids, t, c, id, done);
        rs, ids := rs + [c], ids + [id];
        left, done := left - {id}, done + {id};
      }
    }

    /** Copies of the active receivers subscribed to `typ` by name. */
    method GetByEventType(typ: string) returns (rs: seq<ReceiverObject>, ghost ids: seq<string>)
      requires Valid()
      ensures |rs| == |ids| && forall i | 0 <= i < |rs| :: rs[i].IsCopyOf(Table(), ids[i])
      ensures Lists(ids, Subscribed(Table(), Table().Keys, typ))
      ensures forall r | r in rs :: IsFresh(r)
    {
      ghost var t := Table();
      rs, ids := [], [];
      var left := receivers.Keys;
      ghost var done: set<string> := {};
      while left != {}
        modifies {}
        invariant done !! left && done + left == receivers.Keys
        invariant |rs| == |ids| && forall i | 0 <= i < |rs| :: rs[i].IsCopyOf(t, ids[i])
        invariant Lists(ids, Subscribed(t, done, typ))
        invariant forall r | r in rs :: IsFresh(r)
      {
        var id :| id in left;
        SubscribedAdd(t, done, typ, id);
        rs, ids := AppendIfSubscribed(id, typ, rs, ids, Subscribed(t, done, typ));
        left, done := left - {id}, done + {id};
      }
    }

    /** One round of the scan. */
    method AppendIfSubscribed(
        id: string, typ: string, rs: seq<ReceiverObject>, ghost ids: seq<string>, ghost listed: set<string>)
      returns (all: seq<ReceiverObject>, ghost names: seq<string>)
      requires Valid() && id in receivers && id !in listed && Lists(ids, listed)
      requires |rs| == |ids| && forall i | 0 <= i < |rs| :: rs[i].IsCopyOf(Table(), ids[i])
      ensures |all| == |names| && forall i | 0 <= i < |all| :: all[i].IsCopyOf(Table(), names[i])
      ensures Lists(names, if Listens(Table()[id], typ) then listed + {id} else listed)
      ensures forall r | r in all :: r in rs || IsFresh(r)
    {
      var c := CopyIfSubscribed(id, typ);
      if c == null {
        return rs, ids;
      }
      AppendCopy(rs, ids, Table(), c, id, listed);
      return rs + [c], ids + [id];
    }

    /** What the scan does with one receiver: a copy if it is active and subscribed by name, else null. */
    method CopyIfSubscribed(id: string, typ: string) returns (c: ReceiverObject?)
      requires Valid() && id in receivers
      ensures c != null <==> Listens(Table()[id], typ)
      ensures c != null ==> c.IsCopyOf(Table(), id) && IsFresh(c)
    {
      Entry(id);
      if receivers[id].status != ACTIVE {
        return null;
      }
      var subscribed := receivers[id].Subscribes(typ);
      if !subscribed {
        return null;
      }
      c := receivers[id].Copy();
    }

    /** The broker's selection for an event. */
    method FilterReceivers(e: SecurityEvent) returns (rs: seq<ReceiverObject>, ghost ids: seq<string>)
      requires Valid()
      ensures |rs| == |ids| && forall i | 0 <= i < |rs| :: rs[i].IsCopyOf(Table(), ids[i])
      ensures IsSelection(Table(), e, ids)
      ensures forall r | r in rs :: IsFresh(r)
    {
      ghost var t := Table();
      var candidates;
      ghost var names;
      candidates, names := GetByEventType(e.typ);
      rs, ids := [], [];
      ghost var done: set<string> := {};
      for i := 0 to |candidates|
        modifies {}
        invariant |rs| == |ids| && forall i | 0 <= i < |rs| :: rs[i].IsCopyOf(t, ids[i])
        invariant done == Front(names, i) && Lists(ids, Matched(t, done, e))
        invariant forall r | r in rs :: r in candidates
      {
        FrontAdd(names, i);
        MatchedAdd(t, done, e, names[i]);
        rs, ids := AppendIfMatching(candidates[i], e, rs, t, ids, names[i], Matched(t, done, e));
        done := done + {names[i]};
      }
      assert done == Subscribed(t, t.Keys, e.typ);
    }

    /** One round of the filtering. */
    method AppendIfMatching(
        c: ReceiverObject, e: SecurityEvent, rs: seq<ReceiverObject>, ghost t: Table, ghost ids: seq<string>,
        ghost id: string, ghost listed: set<string>)
      returns (all: seq<ReceiverObject>, ghost names: seq<string>)
      requires c.IsCopyOf(t, id) && id !in listed && Lists(ids, listed)
      requires |rs| == |ids| && forall i | 0 <= i < |rs| :: rs[i].IsCopyOf(t, ids[i])
      ensures |all| == |names| && forall i | 0 <= i < |all| :: all[i].IsCopyOf(t, names[i])
      ensures Lists(names, if AllMatch(t[id].filters, e) then listed + {id} else listed)
      ensures all == if AllMatch(t[id].filters, e) then rs + [c] else rs
    {
      var matches := c.MatchesFilters(e);
      if !matches {
        return rs, ids;
      }
      AppendCopy(rs, ids, t, c, id, listed);
      return rs + [c], ids + [id];
    }

    method Count() returns (n: nat)
      requires Valid()
      ensures n == |Table()|
    {
      n := |receivers|;
      assert Table().Keys == receivers.Keys;
    }

    /** Receivers counted by status: every status present, with its number, and the numbers add up. */
    method CountByStatus() returns (counts: map<string, int>)
      requires Valid()
      ensures Tallies(counts, Table(), Table().Keys)
      ensures Total(counts) == |Table()|
    {
      ghost var t := Table();
      counts := map[];
      var left := receivers.Keys;
      ghost var done: set<string> := {};
      while left != {}
        modifies {}
        invariant done !! left && done + left == t.Keys
        invariant Tallies(counts, t, done)
      {
        var id :| id in left;
        Entry(id);
        TallyOne(counts, t, done, id);
        counts := Tallied(counts, receivers[id].status);
        left, done := left - {id}, done + {id};
      }
      assert done == t.Keys;
      TalliesAddUp(counts, t, done);
      assert Table() == t && |t| == |t.Keys|;
    }
  }

  /** One more receiver with a status. */
  function Tallied(counts: map<string, int>, status: string): map<string, int> {
    counts[status := if status in counts then counts[status] + 1 else 1]
  }

  /** `ids` lists the members of `s`, once each. */
  ghost predicate Lists(ids: seq<string>, s: set<string>) {
    NoDuplicates(ids) && forall id :: id in ids <==> id in s
  }

  lemma AppendCopy(
      rs: seq<ReceiverObject>, ids: seq<string>, t: Table, c: ReceiverObject, id: string, s: set<string>)
    requires |rs| == |ids| && forall i | 0 <= i < |rs| :: rs[i].IsCopyOf(t, ids[i])
    requires c.IsCopyOf(t, id)
    requires Lists(ids, s) && id !in s
    ensures forall i | 0 <= i < |rs + [c]| :: (rs + [c])[i].IsCopyOf(t, (ids + [id])[i])
    ensures Lists(ids + [id], s + {id})
  {
  }

  ghost function Front(ids: seq<string>, n: nat): set<string>
    requires n <= |ids|
  {
    set k | 0 <= k < n :: ids[k]
  }

  lemma FrontAdd(ids: seq<string>, n: nat)
    requires NoDuplicates(ids) && n < |ids|
    ensures ids[n] !in Front(ids, n) && Front(ids, n + 1) == Front(ids, n) + {ids[n]}
  {
  }

  ghost function Matched(t: Table, ids: set<string>, e: SecurityEvent): set<string> {
    set id | id in ids && id in t && AllMatch(t[id].filters, e)
  }

  lemma MatchedAdd(t: Table, ids: set<string>, e: SecurityEvent, id: string)
    requires id in t && id !in ids
    ensures Matched(t, ids + {id}, e) == Matched(t, ids, e) + if AllMatch(t[id].filters, e) then {id} else {}
  {
  }

  /** Active, and subscribed to the type by name. */
  predicate Listens(r: Receiver, typ: string) {
    r.status == ACTIVE && typ in r.eventTypes
  }

  ghost function Subscribed(t: Table, ids: set<string>, typ: string): set<string> {
    set id | id in ids && id in t && Listens(t[id], typ)
  }

  lemma SubscribedAdd(t: Table, ids: set<string>, typ: string, id: string)
    requires id in t && id !in ids
    ensures Subscribed(t, ids + {id}, typ) ==
            Subscribed(t, ids, typ) + if Listens(t[id], typ) then {id} else {}
  {
  }

  ghost function WithStatus(t: Table, ids: set<string>, status: string): set<string> {
    set id | id in ids && id in t && t[id].status == status
  }

  /** `counts` gives, for exactly the statuses that occur among `ids`, how many have each. */
  ghost predicate Tallies(counts: map<string, int>, t: Table, ids: set<string>) {
    forall s {:trigger TalliesStatus(counts, t, ids, s)} :: TalliesStatus(counts, t, ids, s)
  }

  ghost predicate TalliesStatus(counts: map<string, int>, t: Table, ids: set<string>, s: string) {
    var n := |WithStatus(t, ids, s)|;
    if s in counts then counts[s] == n > 0 else n == 0
  }

  lemma TallyOne(counts: map<string, int>, t: Table, ids: set<string>, id: string)
    requires Tallies(counts, t, ids) && id in t && id !in ids
    ensures Tallies(Tallied(counts, t[id].status), t, ids + {id})
  {
    var more := Tallied(counts, t[id].status);
    forall s
      ensures TalliesStatus(more, t, ids + {id}, s)
    {
      assert TalliesStatus(counts, t, ids, s);
      WithStatusAdd(t, ids, id, s);
    }
  }

  lemma WithStatusAdd(t: Table, ids: set<string>, id: string, status: string)
    requires id in t && id !in ids
    ensures WithStatus(t, ids + {id}, status) ==
            WithStatus(t, ids, status) + if status == t[id].status then {id} else {}
    ensures id !in WithStatus(t, ids, status)
  {
  }

  lemma TalliesNonEmpty(counts: map<string, int>, t: Table, ids: set<string>, id: string)
    requires Tallies(counts, t, ids) && id in ids && id in t
    ensures counts != map[]
  {
    assert TalliesStatus(counts, t, ids, t[id].status);
    assert id in WithStatus(t, ids, t[id].status);
  }

  /** Without one status and its receivers, the rest are still tallied. */
  lemma TalliesRest(counts: map<string, int>, t: Table, ids: set<string>, s: string)
    requires Tallies(counts, t, ids) && s in counts
    ensures Tallies(counts - {s}, t, ids - WithStatus(t, ids, s))
    ensures counts[s] == |WithStatus(t, ids, s)|
  {
    var rest := ids - WithStatus(t, ids, s);
    assert TalliesStatus(counts, t, ids, s);
    forall other
      ensures TalliesStatus(counts - {s}, t, rest, other)
    {
      assert TalliesStatus(counts, t, ids, other);
      assert WithStatus(t, rest, other) == if other == s then {} else WithStatus(t, ids, other);
    }
  }

  /** The tallies of a set of receivers sum to its size. */
  lemma {:induction false} TalliesAddUp(counts: map<string, int>, t: Table, ids: set<string>)
    requires Tallies(counts, t, ids) && ids <= t.Keys
    ensures Total(counts) == |ids|
    decreases |counts|
  {
    if counts == map[] {
      if id :| id in ids {
        TalliesNonEmpty(counts, t, ids, id);
      }
    } else {
      var s :| s in counts;
      var rest := ids - WithStatus(t, ids, s);
      TotalRemove(counts, s);
      TalliesRest(counts, t, ids, s);
      TalliesAddUp(counts - {s}, t, rest);
      assert |ids| == |rest| + |WithStatus(t, ids, s)|;
    }
  }
}
