/**
 What filters mean for the events a receiver is selected for, stated on the event's own members. A filter
 on something the event does not have lets the event pass, unless it asks whether it is there.
 */
module Filters {
  import opened Models
  import opened ReceiverTable

  /** The receiver is in the table, active, and lists the type; whether it is selected is up to its filters. */
  predicate Listening(t: Table, id: string, e: SecurityEvent, filters: seq<EventFilter>) {
    id in t && t[id].status == "active" && e.typ in t[id].eventTypes && t[id].filters == filters
  }

  /** The event has a value for the field. */
  predicate HasField(field: string, e: SecurityEvent) {
    Matches(EventFilter(field, Exists, Nil), e)
  }

  /** The value of the field is this one. */
  predicate FieldIs(field: string, e: SecurityEvent, v: Value) {
    HasField(field, e) && Matches(EventFilter(field, Equals, v), e)
  }

  /** The six fields that every event has, each with the member it stands for. */
  function OwnMembers(e: SecurityEvent): map<string, string> {
    map["id" := e.id, "type" := e.typ, "source" := e.source, "subject.format" := e.subjectFormat,
        "subject.identifier" := e.subjectIdentifier, "metadata.transmitter_id" := e.transmitterId]
  }

  /** Selection by one equality filter on one of them: exactly the events with that text there. */
  lemma SelectedByOwnMember(
      t: Table, id: string, e: SecurityEvent, ids: seq<string>, field: string, operand: Value)
    requires field in OwnMembers(e)
    requires Listening(t, id, e, [EventFilter(field, Equals, operand)]) && IsSelection(t, e, ids)
    ensures id in ids <==> operand == Text(OwnMembers(e)[field])
  {
    OneFilter(t, id, e, ids, EventFilter(field, Equals, operand));
  }

  lemma OneFilter(t: Table, id: string, e: SecurityEvent, ids: seq<string>, f: EventFilter)
    requires Listening(t, id, e, [f]) && IsSelection(t, e, ids)
    ensures id in ids <==> Matches(f, e)
  {
    assert f in [f];
  }

  /** The entry of a map, if it is there and not nil. */
  predicate Entry(m: map<string, Value>, key: string, v: Value) {
    key in m && m[key] == v && v != Nil
  }

  lemma Prefixed(prefix: string, key: string)
    ensures (prefix + key)[..|prefix|] == prefix && (prefix + key)[|prefix|..] == key
  {
  }

  /**
   The dotted fields: "data." and "extensions." look the rest of the name up in these maps, "subject." in the
   claims, unless it is the format or the identifier. A name that ends with its dot names nothing.
   */
  lemma DottedFields(e: SecurityEvent, key: string, v: Value)
    ensures key != "" ==> (FieldIs("data." + key, e, v) <==> Entry(e.data, key, v))
    ensures key != "" ==> (FieldIs("extensions." + key, e, v) <==> Entry(e.extensions, key, v))
    ensures key != "" && key != "format" && key != "identifier" ==>
              (FieldIs("subject." + key, e, v) <==> Entry(e.claims, key, v))
    ensures !HasField("data.", e) && !HasField("extensions.", e) && !HasField("subject.", e) && !HasField("", e)
  {
    Prefixed("data.", key);
    Prefixed("extensions.", key);
    Prefixed("subject.", key);
    BareDots(e);
    DataField(e, key, v);
    ExtensionField(e, key, v);
    ClaimField(e, key, v);
  }

  lemma BareDots(e: SecurityEvent)
    ensures !HasField("data.", e) && !HasField("extensions.", e) && !HasField("subject.", e) && !HasField("", e)
  {
    assert "extensions."[0] == 'e' && "subject."[0] == 's' && "data."[0] == 'd';
    assert "extensions."[..5][0] == 'e' && "extensions."[..8][0] == 'e' && "subject."[..5][0] == 's';
  }

  lemma DataField(e: SecurityEvent, key: string, v: Value)
    requires ("data." + key)[..5] == "data." && ("data." + key)[5..] == key
    ensures key != "" ==> (FieldIs("data." + key, e, v) <==> Entry(e.data, key, v))
  {
    assert ("data." + key)[0] == 'd';
  }

  lemma ExtensionField(e: SecurityEvent, key: string, v: Value)
    requires ("extensions." + key)[..11] == "extensions." && ("extensions." + key)[11..] == key
    ensures key != "" ==> (FieldIs("extensions." + key, e, v) <==> Entry(e.extensions, key, v))
  {
    assert ("extensions." + key)[0] == 'e' && ("extensions." + key)[1] == 'x';
  }

  lemma ClaimField(e: SecurityEvent, key: string, v: Value)
    requires ("subject." + key)[..8] == "subject." && ("subject." + key)[8..] == key
    ensures key != "" && key != "format" && key != "identifier" ==>
              (FieldIs("subject." + key, e, v) <==> Entry(e.claims, key, v))
  {
    var field := "subject." + key;
    assert field[0] == 's' && field[1] == 'u';
    assert "subject.format"[8..] == "format" && "subject.identifier"[8..] == "identifier";
  }

  /** A missing field lets every operator pass but Exists; the value of a field is only one. */
  lemma MissingAndPresent(field: string, e: SecurityEvent, op: FilterOp, v: Value, w: Value)
    ensures !HasField(field, e) ==> (Matches(EventFilter(field, op, v), e) <==> op != Exists)
    ensures FieldIs(field, e, v) && FieldIs(field, e, w) ==> v == w
    ensures HasField(field, e) ==> exists u :: u != Nil && FieldIs(field, e, u)
    ensures Matches(EventFilter(field, Exists, v), e) <==> HasField(field, e)
  {
    assert HasField(field, e) ==> FieldIs(field, e, Extract(field, e));
  }

  /** The maps that dotted field names look into. */
  function Maps(e: SecurityEvent): map<string, map<string, Value>> {
    map["data." := e.data, "extensions." := e.extensions, "subject." := e.claims]
  }

  /** Selection by one equality filter on an entry: the events that have that value there, and those without one. */
  lemma SelectedByDottedField(
      t: Table, id: string, e: SecurityEvent, ids: seq<string>, prefix: string, key: string, operand: Value)
    requires prefix in Maps(e) && key != "" && (prefix == "subject." ==> key != "format" && key != "identifier")
    requires Listening(t, id, e, [EventFilter(prefix + key, Equals, operand)]) && IsSelection(t, e, ids)
    ensures var m := Maps(e)[prefix];
            id in ids <==> key !in m || m[key] == Nil || m[key] == operand
  {
    var m := Maps(e)[prefix];
    OneFilter(t, id, e, ids, EventFilter(prefix + key, Equals, operand));
    DottedFields(e, key, operand);
    if key in m {
      DottedFields(e, key, m[key]);
    }
    MissingAndPresent(prefix + key, e, Equals, operand, operand);
    DottedIsThere(e, prefix, key);
  }

  lemma DottedIsThere(e: SecurityEvent, prefix: string, key: string)
    requires prefix in Maps(e) && key != "" && (prefix == "subject." ==> key != "format" && key != "identifier")
    ensures HasField(prefix + key, e) <==> key in Maps(e)[prefix] && Maps(e)[prefix][key] != Nil
  {
    var m, field := Maps(e)[prefix], prefix + key;
    if HasField(field, e) {
      MissingAndPresent(field, e, Exists, Nil, Nil);
      var u :| u != Nil && FieldIs(field, e, u);
      DottedFields(e, key, u);
    }
    if key in m {
      DottedFields(e, key, m[key]);
    }
  }

  /** A field that names no member and none of the three maps is one that no event has. */
  lemma OtherFields(e: SecurityEvent, field: string)
    ensures HasField(field, e) ==>
              field in OwnMembers(e) || "data." <= field || "extensions." <= field || "subject." <= field
  {
  }

  // The operators

  /** On a field that is there, "in" means equal to one of the items, of a list and nothing else. */
  lemma InIsAnyEquals(field: string, e: SecurityEvent, operand: Value)
    requires HasField(field, e)
    ensures Matches(EventFilter(field, In, operand), e) <==>
            operand.List? && exists item :: item in operand.items && Matches(EventFilter(field, Equals, item), e)
  {
  }

  /** "contains" and "matches" mean the same, and hold on texts that end with the operand. */
  lemma ContainsIsEndsWith(field: string, e: SecurityEvent, v: Value, operand: Value)
    requires FieldIs(field, e, v)
    ensures Matches(EventFilter(field, Contains, operand), e) <==>
            v.Text? && operand.Text? && exists p: string :: v.s == p + operand.s
    ensures Matches(EventFilter(field, Matching, operand), e) <==> Matches(EventFilter(field, Contains, operand), e)
  {
    if v.Text? && operand.Text? {
      ContainsIsSuffix(v.s, operand.s);
    }
  }

  /** An operator the hub does not know never matches what is there. */
  lemma UnknownNeverMatches(field: string, e: SecurityEvent, name: string, operand: Value)
    requires HasField(field, e)
    ensures !Matches(EventFilter(field, Unknown(name), operand), e)
  {
  }

  /** Filters are joined by and. */
  lemma FiltersAreJoined(a: seq<EventFilter>, b: seq<EventFilter>, f: EventFilter, e: SecurityEvent)
    ensures AllMatch(a + b, e) <==> AllMatch(a, e) && AllMatch(b, e)
    ensures AllMatch([], e) && (AllMatch([f], e) <==> Matches(f, e))
  {
    if AllMatch(a + b, e) {
      forall g | g in a || g in b
        ensures Matches(g, e)
      {
        assert g in a + b;
      }
    }
    assert f in [f];
  }

  /** So a listening receiver is selected exactly when each of its filters would select it alone. */
  lemma SelectedByEveryFilter(t: Table, id: string, e: SecurityEvent, ids: seq<string>, filters: seq<EventFilter>)
    requires Listening(t, id, e, filters) && IsSelection(t, e, ids)
    ensures id in ids <==> forall f | f in filters :: AllMatch([f], e)
  {
    forall f
      ensures AllMatch([f], e) <==> Matches(f, e)
    {
      FiltersAreJoined([], [], f, e);
    }
  }

  /** And nobody is selected who is not listening. */
  lemma OnlyListenersAreSelected(t: Table, id: string, e: SecurityEvent, ids: seq<string>)
    requires IsSelection(t, e, ids) && id in ids
    ensures Listening(t, id, e, t[id].filters)
  {
  }
}
