/** Printing a token and parsing it again. */
module TokenTheorems {
  import opened Wrappers
  import opened Json
  import opened Sequences
  import opened Token
  import Events
  import EventTheorems
  import Subject
  import SubjectTheorems

  // Claims

  lemma AudienceParsed(aud: seq<string>)
    ensures ParseAudience(PrintAudience(aud)) == Ok(aud)
  {
    if aud != [] {
      var items := PrintAudience(aud).value.items;
      assert seq(|items|, i requires 0 <= i < |items| => TextOf(items[i])) == aud;
    }
  }

  const NAME_KEYS := {"iss", "sub", "aud", "jti"}
  const REST_KEYS := {"exp", "nbf", "iat", "txn"}

  predicate HoldsNames(all: map<string, Json>, c: Registered) {
    && Raw(all, "iss") == PrintNonEmpty(c.iss) && Raw(all, "sub") == PrintNonEmpty(c.sub)
    && Raw(all, "aud") == PrintAudience(c.aud) && Raw(all, "jti") == PrintNonEmpty(c.jti)
  }

  predicate HoldsRest(all: map<string, Json>, c: Registered) {
    && Raw(all, "exp") == PrintDate(c.exp) && Raw(all, "nbf") == PrintDate(c.nbf)
    && Raw(all, "iat") == PrintDate(c.iat) && Raw(all, "txn") == PrintText(c.txn)
  }

  lemma NamesRead(c: Registered)
    ensures HoldsNames(PrintNames(c), c) && PrintNames(c).Keys <= NAME_KEYS
  {
    FourMembers("iss", "sub", "aud", "jti", PrintNonEmpty(c.iss), PrintNonEmpty(c.sub), PrintAudience(c.aud),
                PrintNonEmpty(c.jti));
  }

  lemma RestRead(c: Registered)
    ensures HoldsRest(PrintRest(c), c) && PrintRest(c).Keys <= REST_KEYS
  {
    FourMembers("exp", "nbf", "iat", "txn", PrintDate(c.exp), PrintDate(c.nbf), PrintDate(c.iat), PrintText(c.txn));
  }

  lemma NamesStay(all: map<string, Json>, more: map<string, Json>, c: Registered)
    requires HoldsNames(all, c) && forall key | key in NAME_KEYS :: Raw(more, key) == Raw(all, key)
    ensures HoldsNames(more, c)
  {
    assert "iss" in NAME_KEYS && "sub" in NAME_KEYS && "aud" in NAME_KEYS && "jti" in NAME_KEYS;
  }

  lemma RestStays(all: map<string, Json>, more: map<string, Json>, c: Registered)
    requires HoldsRest(all, c) && forall key | key in REST_KEYS :: Raw(more, key) == Raw(all, key)
    ensures HoldsRest(more, c)
  {
    assert "exp" in REST_KEYS && "nbf" in REST_KEYS && "iat" in REST_KEYS && "txn" in REST_KEYS;
  }

  lemma KeysApart()
    ensures NAME_KEYS !! REST_KEYS && "sub_id" !in NAME_KEYS + REST_KEYS && "events" !in NAME_KEYS + REST_KEYS
  {
  }

  /** Two objects with names apart, in one. */
  lemma MergeApart(a: map<string, Json>, b: map<string, Json>, names: set<string>, others: set<string>)
    requires a.Keys <= names && b.Keys <= others && names !! others
    ensures forall key | key in names :: Raw(a + b, key) == Raw(a, key)
    ensures forall key | key in others :: Raw(a + b, key) == Raw(b, key)
    ensures (a + b).Keys <= names + others
  {
  }

  lemma ClaimsRead(c: Registered)
    ensures var all := PrintNames(c) + PrintRest(c);
            HoldsNames(all, c) && HoldsRest(all, c) && "sub_id" !in all && "events" !in all
  {
    NamesRead(c);
    RestRead(c);
    KeysApart();
    var names, rest := PrintNames(c), PrintRest(c);
    MergeApart(names, rest, NAME_KEYS, REST_KEYS);
    NamesStay(names, names + rest, c);
    RestStays(rest, names + rest, c);
  }

  /** Every member of a printed token is read back from its place. */
  lemma MembersRead(c: Registered, s: Option<Subject.Subject>, events: map<string, Json>)
    ensures var all := PrintWith(c, s, events).members;
            && Raw(all, "sub_id") == Some(PrintSubject(s)) && Raw(all, "events") == Some(Obj(events))
            && HoldsNames(all, c) && HoldsRest(all, c)
  {
    ClaimsRead(c);
    KeysApart();
    var claims := PrintNames(c) + PrintRest(c);
    var all := PrintWith(c, s, events).members;
    TwoAndMore("sub_id", "events", PrintSubject(s), Obj(events), claims);
    NamesStay(claims, all, c);
    RestStays(claims, all, c);
  }

  lemma ClaimsParsed(env: Env, all: map<string, Json>, c: Registered)
    requires HoldsNames(all, c) && HoldsRest(all, c)
    ensures ParseClaims(env, all) == Ok(c)
  {
    AudienceParsed(c.aud);
  }

  /** The shared part of a printed token comes back when its subject does. */
  lemma HeadParsed(env: Env, c: Registered, s: Option<Subject.Subject>, events: map<string, Json>)
    ensures var r := ParseHead(env, PrintWith(c, s, events));
            if s.Some? && SubjectTheorems.AllKnown(s.value)
            then r == Ok(Head(c, events, Some(Subject.TrimmedAll(s.value))))
            else r.Err?
  {
    MembersRead(c, s, events);
    var all := PrintWith(c, s, events).members;
    ClaimsParsed(env, all, c);
    assert ParseEventMap(Raw(all, "events")) == Ok(events);
    SubjectParsed(s);
  }

  lemma SubjectParsed(s: Option<Subject.Subject>)
    ensures var r := ParseSubject(Some(PrintSubject(s)));
            if s.Some? && SubjectTheorems.AllKnown(s.value)
            then r == Ok(Some(Subject.TrimmedAll(s.value)))
            else r.Err?
  {
    if s.Some? {
      SubjectTheorems.RoundTrip(s.value);
    }
  }

  // Tokens with one event

  /** The token itself is valid, its event parses back, and so does its subject. */
  predicate Sound(env: Env, e: SecEvent) {
    && Validate(env, e) == None
    && EventTheorems.Sound(e.event.value) && SubjectTheorems.AllKnown(e.subject.value)
  }

  function Canonical(e: SecEvent): SecEvent
    requires e.event.Some? && e.subject.Some?
  {
    SecEvent(e.claims, Some(EventTheorems.Normalized(e.event.value)), Some(Subject.TrimmedAll(e.subject.value)))
  }

  /** The parser's condition is that there is exactly one event. */
  lemma ExactlyOneEvent(events: map<string, Json>)
    ensures ParseOne(events) == Err(NotOneEvent) <==> |events| != 1
  {
    assert |events| == |events.Keys|;
    assert forall t | t in events && events.Keys == {t} :: |events.Keys| == 1;
    if |events| == 1 {
      var t :| t in events;
      assert |events.Keys - {t}| == 0;
      assert events.Keys == {t};
    }
  }

  lemma OneParsed(e: Events.Event)
    ensures var r := ParseOne(map[e.typ := Events.Payload(e)]);
            if EventTheorems.Sound(e) then r == Ok(EventTheorems.Normalized(e)) else r.Err?
  {
    var events := map[e.typ := Events.Payload(e)];
    assert e.typ in events && events.Keys == {e.typ};
    EventTheorems.EventRoundTrip(e);
  }

  lemma CanonicalIsValidAlike(env: Env, e: SecEvent)
    requires e.event.Some? && e.subject.Some?
    ensures Validate(env, Canonical(e)) == Validate(env, e)
  {
    EventTheorems.NormalizedIsValidAlike(e.event.value);
    SubjectTheorems.ValidateTrimmed(env.syntax, e.subject.value);
  }

  /**
     A printed token is accepted exactly when it is sound, and then it is the token with its subject
     trimmed and empty metadata gone.
   */
  lemma TokenRoundTrip(env: Env, e: SecEvent)
    ensures Parse(env, Print(e)).Ok? <==> Sound(env, e)
    ensures Sound(env, e) ==> Parse(env, Print(e)) == Ok(Canonical(e))
  {
    var events := match e.event case None => map[] case Some(v) => map[v.typ := Events.Payload(v)];
    HeadParsed(env, e.claims, e.subject, events);
    if e.event.Some? {
      OneParsed(e.event.value);
      if e.subject.Some? {
        CanonicalIsValidAlike(env, e);
      }
    }
  }

  // What is accepted

  /** Everything a token must have: names, and an event and a subject that are valid themselves. */
  predicate Whole(env: Env, e: SecEvent) {
    && e.claims.iss != "" && e.claims.jti != ""
    && e.event.Some? && Events.Validate(e.event.value) == None
    && e.subject.Some? && Subject.Validate(env.syntax, e.subject.value) == None
  }

  /** What is accepted is whole, and a token is accepted when printed exactly when it is whole and its parts parse. */
  lemma AcceptedExactlyWhenWhole(env: Env, j: Json, e: SecEvent)
    ensures Parse(env, j).Ok? ==> Whole(env, Parse(env, j).value)
    ensures Parse(env, Print(e)).Ok? <==>
            Whole(env, e) && EventTheorems.Sound(e.event.value) && SubjectTheorems.AllKnown(e.subject.value)
  {
    WholeIsValid(env, e);
    TokenRoundTrip(env, e);
    if Parse(env, j).Ok? {
      ParsedIsSound(env, j);
      WholeIsValid(env, Parse(env, j).value);
    }
  }

  lemma WholeIsValid(env: Env, e: SecEvent)
    ensures Whole(env, e) <==> Validate(env, e) == None
  {
  }

  /** What can be wrong with a token whose parts parse, in the order in which it is reported. */
  function HeadFaults(env: Env, c: Registered, s: Option<Subject.Subject>): seq<Fault<TokenError>> {
    [(c.iss == "", Missing("iss")), (c.jti == "", Missing("jti")), (s == None, Missing("sub_id")),
     (s != None && Subject.Validate(env.syntax, s.value) != None, InvalidSubject)]
  }

  /** Every tree: the first part that does not parse is reported, then the first of those faults. */
  lemma RejectedForTheFirstFault(env: Env, j: Json)
    ensures ParseHead(env, j).Err? ==> Parse(env, j) == Err(ParseHead(env, j).error)
    ensures ParseHead(env, j).Ok? && ParseOne(ParseHead(env, j).value.events).Err? ==>
              Parse(env, j) == Err(ParseOne(ParseHead(env, j).value.events).error)
    ensures ParseHead(env, j).Ok? && ParseOne(ParseHead(env, j).value.events).Ok? ==>
              var head := ParseHead(env, j).value;
              var fault := First(HeadFaults(env, head.claims, head.subject));
              && (fault.Some? ==> Parse(env, j) == Err(fault.value))
              && (fault == None ==>
                    Parse(env, j) == Ok(SecEvent(head.claims, Some(ParseOne(head.events).value), head.subject)))
  {
    if ParseHead(env, j).Ok? && ParseOne(ParseHead(env, j).value.events).Ok? {
      var head := ParseHead(env, j).value;
      OneIsValid(head.events);
      FaultsFound(env, head.claims, head.subject, Some(ParseOne(head.events).value));
    }
  }

  lemma OneIsValid(events: map<string, Json>)
    requires ParseOne(events).Ok?
    ensures Events.Validate(ParseOne(events).value) == None
  {
    var t :| t in events && events.Keys == {t} && ParseOne(events) == Ok(Events.Parse(t, events[t]).value)
             && Events.Parse(t, events[t]).Ok?;
    EventTheorems.ParsedIsSound(t, events[t]);
  }

  lemma FaultsFound(env: Env, c: Registered, s: Option<Subject.Subject>, event: Option<Events.Event>)
    requires event.Some? && Events.Validate(event.value) == None
    ensures Validate(env, SecEvent(c, event, s)) == First(HeadFaults(env, c, s))
  {
    HeadFaultsFound(env, c, s);
  }

  lemma HeadFaultsFound(env: Env, c: Registered, s: Option<Subject.Subject>)
    ensures First(HeadFaults(env, c, s)) ==
            if ValidateHead(c).Some? then ValidateHead(c)
            else if s == None then Some(Missing("sub_id"))
            else ValidateSubject(env, s.value)
  {
    var f := HeadFaults(env, c, s);
    FirstIsNone(f);
    var k := if f[0].0 then 0 else if f[1].0 then 1 else if f[2].0 then 2 else 3;
    if f[k].0 {
      FirstIs(f, k);
    }
  }

  /** What is missing from a token, or wrong with it, that is otherwise complete: the error its printed form gets. */
  lemma EachFaultHasItsError(env: Env, e: SecEvent)
    requires Whole(env, e) && EventTheorems.Sound(e.event.value) && SubjectTheorems.AllKnown(e.subject.value)
    ensures Parse(env, Print(e.(claims := e.claims.(iss := "")))) == Err(Missing("iss"))
    ensures Parse(env, Print(e.(claims := e.claims.(jti := "")))) == Err(Missing("jti"))
    ensures Parse(env, Print(e.(event := None))) == Err(NotOneEvent)
    ensures Parse(env, Print(e.(subject := None))) == Err(BadSubject(Subject.Unsupported("")))
  {
    PrintedHead(env, e.(claims := e.claims.(iss := "")));
    PrintedHead(env, e.(claims := e.claims.(jti := "")));
    OneParsed(e.event.value);
    HeadParsed(env, e.claims, e.subject, map[]);
    ExactlyOneEvent(map[]);
    UnparsedSubject(env, e.(subject := None));
  }

  /** Without a subject null is printed in its place, which no format fits. */
  lemma UnparsedSubject(env: Env, e: SecEvent)
    requires e.event.Some? && Subject.Parse(PrintSubject(e.subject)).Err?
    ensures Parse(env, Print(e)) == Err(BadSubject(Subject.Parse(PrintSubject(e.subject)).error))
  {
    UnparsedHead(env, e.claims, e.subject, map[e.event.value.typ := Events.Payload(e.event.value)]);
  }

  lemma UnparsedHead(env: Env, c: Registered, s: Option<Subject.Subject>, events: map<string, Json>)
    requires Subject.Parse(PrintSubject(s)).Err?
    ensures ParseHead(env, PrintWith(c, s, events)) == Err(BadSubject(Subject.Parse(PrintSubject(s)).error))
  {
    MembersRead(c, s, events);
    var all := PrintWith(c, s, events).members;
    ClaimsParsed(env, all, c);
    assert ParseEventMap(Raw(all, "events")) == Ok(events);
    assert ParseSubject(Some(PrintSubject(s))) == Err(BadSubject(Subject.Parse(PrintSubject(s)).error));
  }

  lemma PrintedHead(env: Env, e: SecEvent)
    requires e.event.Some? && e.subject.Some? && SubjectTheorems.AllKnown(e.subject.value)
    ensures ParseHead(env, Print(e)) ==
            Ok(Head(e.claims, map[e.event.value.typ := Events.Payload(e.event.value)],
                    Some(Subject.TrimmedAll(e.subject.value))))
  {
    HeadParsed(env, e.claims, e.subject, map[e.event.value.typ := Events.Payload(e.event.value)]);
  }

  /** An event that is invalid, or whose type is not its own, in a token that is otherwise complete. */
  lemma UnsoundEventIsReported(env: Env, e: SecEvent, event: Events.Event)
    requires Whole(env, e) && SubjectTheorems.AllKnown(e.subject.value) && !EventTheorems.Sound(event)
    ensures Parse(env, Print(e.(event := Some(event)))) == Err(BadEvents)
  {
    PrintedHead(env, e.(event := Some(event)));
    UnsoundEventIsBad(event);
  }

  /** An invalid subject, or one of a format the parser does not know. */
  lemma InvalidSubjectIsReported(env: Env, e: SecEvent, subject: Subject.Subject)
    requires Whole(env, e) && EventTheorems.Sound(e.event.value)
    ensures SubjectTheorems.AllKnown(subject) && Subject.Validate(env.syntax, subject) != None ==>
              Parse(env, Print(e.(subject := Some(subject)))) == Err(InvalidSubject)
    ensures !SubjectTheorems.AllKnown(subject) ==>
              exists cause :: Parse(env, Print(e.(subject := Some(subject)))) == Err(BadSubject(cause))
  {
    SubjectTheorems.RoundTrip(subject);
    if SubjectTheorems.AllKnown(subject) {
      PrintedHead(env, e.(subject := Some(subject)));
      OneParsed(e.event.value);
      SubjectTheorems.ValidateTrimmed(env.syntax, subject);
      EventTheorems.NormalizedIsValidAlike(e.event.value);
    } else {
      UnparsedSubject(env, e.(subject := Some(subject)));
    }
  }

  lemma UnsoundEventIsBad(e: Events.Event)
    ensures !EventTheorems.Sound(e) ==> ParseOne(map[e.typ := Events.Payload(e)]) == Err(BadEvents)
  {
    var events := map[e.typ := Events.Payload(e)];
    assert e.typ in events && events.Keys == {e.typ};
    OneParsed(e);
  }

  lemma ParsedIsSound(env: Env, j: Json)
    requires Parse(env, j).Ok?
    ensures Sound(env, Parse(env, j).value)
    ensures SubjectTheorems.Settled(Parse(env, j).value.subject.value)
  {
    var head := ParseHead(env, j).value;
    var members := Events.Members(j).value;
    if "sub_id" in members {
      SubjectTheorems.ParsedIsSettled(members["sub_id"]);
    }
    var t :| t in head.events && head.events.Keys == {t}
             && Events.Parse(t, head.events[t]).Ok?
             && ParseOne(head.events).value == Events.Parse(t, head.events[t]).value;
    EventTheorems.ParsedIsSound(t, head.events[t]);
  }

  /** The token with empty metadata gone. */
  function WithoutEmptyMetadata(e: SecEvent): SecEvent
    requires e.event.Some?
  {
    e.(event := Some(EventTheorems.Normalized(e.event.value)))
  }

  /**
     Parse stability: whenever a tree is accepted, printing the token and parsing it again succeeds, and
     gives the same token up to empty metadata; from then on nothing changes any more.
   */
  lemma ParsedTokenIsStable(env: Env, j: Json)
    requires Parse(env, j).Ok?
    ensures var e := Parse(env, j).value;
            && e.event.Some?
            && Parse(env, Print(e)) == Ok(WithoutEmptyMetadata(e))
            && Parse(env, Print(WithoutEmptyMetadata(e))) == Ok(WithoutEmptyMetadata(e))
  {
    var e := Parse(env, j).value;
    ParsedIsSound(env, j);
    TokenRoundTrip(env, e);
    var n := WithoutEmptyMetadata(e);
    assert Canonical(e) == n;
    EventTheorems.NormalizedIsValidAlike(e.event.value);
    assert Sound(env, n) && Canonical(n) == n;
    TokenRoundTrip(env, n);
  }

  /** A token around a newly made credential change event is printed, but never accepted back. */
  lemma NewCredentialTokenIsLost(
      env: Env, c: Registered, s: Option<Subject.Subject>, credentialType: string, changeType: string)
    ensures Parse(env, Print(SecEvent(c, Some(EventTheorems.NewCredentialChange(credentialType, changeType)), s))).Err?
  {
    TokenRoundTrip(env, SecEvent(c, Some(EventTheorems.NewCredentialChange(credentialType, changeType)), s));
  }

  // Tokens with several events

  /** An event as the key it is filed under would have it. */
  function Filed(t: string, e: Events.Event): Events.Event {
    e.(typ := t)
  }

  ghost predicate SoundMulti(env: Env, e: MultiSecEvent) {
    && ValidateMulti(env, e) == None && SubjectTheorems.AllKnown(e.subject.value)
    && AllSound(e.events)
  }

  predicate SoundAt(events: map<string, Events.Event>, t: string)
    requires t in events
  {
    EventTheorems.Sound(Filed(t, events[t]))
  }

  function CanonicalEvents(events: map<string, Events.Event>): map<string, Events.Event> {
    map t | t in events :: EventTheorems.Normalized(Filed(t, events[t]))
  }

  function CanonicalMulti(e: MultiSecEvent): MultiSecEvent
    requires e.subject.Some?
  {
    MultiSecEvent(e.claims, CanonicalEvents(e.events), Some(Subject.TrimmedAll(e.subject.value)))
  }

  lemma FiledParsed(events: map<string, Events.Event>, t: string)
    requires t in events
    ensures Events.Parse(t, Events.Payload(events[t])).Ok? <==> SoundAt(events, t)
    ensures SoundAt(events, t) ==>
              Events.Parse(t, Events.Payload(events[t])) == Ok(EventTheorems.Normalized(Filed(t, events[t])))
  {
    EventTheorems.EventRoundTrip(Filed(t, events[t]));
    assert Events.Payload(Filed(t, events[t])) == Events.Payload(events[t]);
  }

  /** Every event is sound under its key. */
  ghost predicate AllSound(events: map<string, Events.Event>) {
    forall t {:trigger SoundAt(events, t)} | t in events :: SoundAt(events, t)
  }

  function Payloads(events: map<string, Events.Event>): map<string, Json> {
    map t | t in events :: Events.Payload(events[t])
  }

  lemma Assemble(js: map<string, Json>, events: map<string, Events.Event>)
    requires js.Keys == events.Keys && forall t | t in js :: Events.Parse(t, js[t]) == Ok(events[t])
    ensures ParseAll(js) == Ok(events)
  {
    assert (map t | t in js :: Events.Parse(t, js[t]).value) == events;
  }

  lemma SoundEventsParse(events: map<string, Events.Event>)
    requires AllSound(events)
    ensures ParseAll(Payloads(events)) == Ok(CanonicalEvents(events))
  {
    forall t | t in events
      ensures Events.Parse(t, Payloads(events)[t]) == Ok(CanonicalEvents(events)[t])
    {
      assert SoundAt(events, t);
      FiledParsed(events, t);
    }
    Assemble(Payloads(events), CanonicalEvents(events));
  }

  lemma UnsoundEventSpoils(events: map<string, Events.Event>, t: string)
    requires t in events && !SoundAt(events, t)
    ensures ParseAll(Payloads(events)).Err?
  {
    FiledParsed(events, t);
    assert !Events.Parse(t, Payloads(events)[t]).Ok?;
  }

  lemma AllParsed(events: map<string, Events.Event>)
    ensures ParseAll(Payloads(events)).Ok? <==> AllSound(events)
    ensures AllSound(events) ==> ParseAll(Payloads(events)) == Ok(CanonicalEvents(events))
  {
    if AllSound(events) {
      SoundEventsParse(events);
    } else {
      var t :| t in events && !SoundAt(events, t);
      UnsoundEventSpoils(events, t);
    }
  }

  lemma CanonicalMultiIsValidAlike(env: Env, e: MultiSecEvent)
    requires e.subject.Some?
    ensures ValidateMulti(env, CanonicalMulti(e)) == ValidateMulti(env, e)
  {
    var c := CanonicalEvents(e.events);
    forall t | t in e.events
      ensures Events.Validate(c[t]) == Events.Validate(e.events[t])
    {
      EventTheorems.NormalizedIsValidAlike(Filed(t, e.events[t]));
    }
    assert c.Keys == e.events.Keys;
    assert c == map[] <==> c.Keys == {};
    assert e.events == map[] <==> e.events.Keys == {};
    SubjectTheorems.ValidateTrimmed(env.syntax, e.subject.value);
  }

  /** The same for tokens with any number of events: accepted exactly when sound, and then made canonical. */
  lemma MultiRoundTrip(env: Env, e: MultiSecEvent)
    ensures ParseMulti(env, PrintMulti(e)).Ok? <==> SoundMulti(env, e)
    ensures SoundMulti(env, e) ==> ParseMulti(env, PrintMulti(e)) == Ok(CanonicalMulti(e))
  {
    HeadParsed(env, e.claims, e.subject, Payloads(e.events));
    assert PrintMulti(e) == PrintWith(e.claims, e.subject, Payloads(e.events));
    AllParsed(e.events);
    if e.subject.Some? {
      CanonicalMultiIsValidAlike(env, e);
    }
  }

  /** Everything a token with several events must have. */
  ghost predicate WholeMulti(env: Env, e: MultiSecEvent) {
    && e.claims.iss != "" && e.claims.jti != ""
    && |e.events| > 0 && (forall t | t in e.events :: Events.Validate(e.events[t]) == None)
    && e.subject.Some? && Subject.Validate(env.syntax, e.subject.value) == None
  }

  lemma MultiAcceptedExactlyWhenWhole(env: Env, j: Json, e: MultiSecEvent)
    ensures ParseMulti(env, j).Ok? ==> WholeMulti(env, ParseMulti(env, j).value)
    ensures ParseMulti(env, PrintMulti(e)).Ok? <==>
            WholeMulti(env, e) && AllSound(e.events) && SubjectTheorems.AllKnown(e.subject.value)
  {
    MultiRoundTrip(env, e);
    WholeMultiIsValid(env, e);
    if ParseMulti(env, j).Ok? {
      ParsedMultiIsValid(env, j);
      WholeMultiIsValid(env, ParseMulti(env, j).value);
    }
  }

  lemma ParsedMultiIsValid(env: Env, j: Json)
    requires ParseMulti(env, j).Ok?
    ensures ValidateMulti(env, ParseMulti(env, j).value) == None
  {
  }

  lemma WholeMultiIsValid(env: Env, e: MultiSecEvent)
    ensures WholeMulti(env, e) <==> ValidateMulti(env, e) == None
  {
    assert e.events == map[] <==> |e.events| == 0;
  }

  /** Every tree, as for one event; no event at all is reported between the names and the subject. */
  lemma MultiRejectedForTheFirstFault(env: Env, j: Json)
    ensures ParseHead(env, j).Err? ==> ParseMulti(env, j) == Err(ParseHead(env, j).error)
    ensures ParseHead(env, j).Ok? && ParseAll(ParseHead(env, j).value.events).Err? ==>
              ParseMulti(env, j) == Err(BadEvents)
    ensures ParseHead(env, j).Ok? && ParseAll(ParseHead(env, j).value.events).Ok? ==>
              var head := ParseHead(env, j).value;
              var fault := First(MultiFaults(env, head));
              && (fault.Some? ==> ParseMulti(env, j) == Err(fault.value))
              && (fault == None ==>
                    ParseMulti(env, j) == Ok(MultiSecEvent(head.claims, ParseAll(head.events).value, head.subject)))
  {
    if ParseHead(env, j).Ok? && ParseAll(ParseHead(env, j).value.events).Ok? {
      var head := ParseHead(env, j).value;
      AllAreValid(head.events);
      MultiFaultsFound(env, head, ParseAll(head.events).value);
    }
  }

  lemma MultiFaultsFound(env: Env, head: Head, events: map<string, Events.Event>)
    requires (events == map[] <==> head.events == map[]) && forall t | t in events :: Events.Validate(events[t]) == None
    ensures ValidateMulti(env, MultiSecEvent(head.claims, events, head.subject)) == First(MultiFaults(env, head))
  {
    var f := MultiFaults(env, head);
    FirstIsNone(f);
    var k := if f[0].0 then 0 else if f[1].0 then 1 else if f[2].0 then 2 else if f[3].0 then 3 else 4;
    if f[k].0 {
      FirstIs(f, k);
    }
  }

  function MultiFaults(env: Env, head: Head): seq<Fault<TokenError>> {
    [(head.claims.iss == "", Missing("iss")), (head.claims.jti == "", Missing("jti")),
     (head.events == map[], Missing("events")), (head.subject == None, Missing("sub_id")),
     (head.subject != None && Subject.Validate(env.syntax, head.subject.value) != None, InvalidSubject)]
  }

  lemma AllAreValid(events: map<string, Json>)
    requires ParseAll(events).Ok?
    ensures ParseAll(events).value.Keys == events.Keys && (ParseAll(events).value == map[] <==> events == map[])
    ensures forall t | t in ParseAll(events).value :: Events.Validate(ParseAll(events).value[t]) == None
  {
    var all := ParseAll(events).value;
    assert all.Keys == events.Keys;
    assert (all == map[] <==> all.Keys == {}) && (events == map[] <==> events.Keys == {});
    forall t | t in all
      ensures Events.Validate(all[t]) == None
    {
      EventTheorems.ParsedIsSound(t, events[t]);
    }
  }
}
