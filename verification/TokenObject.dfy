/** A token as the object it is in the source: set claim by claim, printed, and parsed in place. */
module TokenObject {
  import opened Wrappers
  import opened Json
  import opened Token
  import Events
  import Subject
  import TokenTheorems
  import TrimSpace

  // Claims parsed over those there are

  /** Absent and null leave a string as it was. */
  function TextOver(prior: string, members: map<string, Json>, key: string): Result<string, string> {
    match Raw(members, key)
    case None => Ok(prior)
    case Some(Null) => Ok(prior)
    case Some(_) => TextField(members, key)
  }

  /** Absent leaves a value as it was; null makes it nil. */
  function NullableOver(prior: Option<string>, members: map<string, Json>, key: string)
    : Result<Option<string>, string>
  {
    if key in members then NullableText(members, key) else Ok(prior)
  }

  function DateOver(env: Env, prior: Option<int>, members: map<string, Json>, key: string)
    : Result<Option<int>, string>
  {
    if key in members then ParseDate(env, Raw(members, key)) else Ok(prior)
  }

  function AudienceOver(prior: seq<string>, members: map<string, Json>): Result<seq<string>, string> {
    match Raw(members, "aud")
    case None => Ok(prior)
    case Some(Null) => Ok(prior)
    case o => ParseAudience(o)
  }

  function ClaimsOver(env: Env, prior: Registered, members: map<string, Json>): Result<Registered, string> {
    var iss :- TextOver(prior.iss, members, "iss");
    var sub :- TextOver(prior.sub, members, "sub");
    var aud :- AudienceOver(prior.aud, members);
    var jti :- TextOver(prior.jti, members, "jti");
    var exp :- DateOver(env, prior.exp, members, "exp");
    var nbf :- DateOver(env, prior.nbf, members, "nbf");
    var iat :- DateOver(env, prior.iat, members, "iat");
    var txn :- NullableOver(prior.txn, members, "txn");
    Ok(Registered(iss, sub, aud, exp, nbf, iat, jti, txn))
  }

  const NO_CLAIMS := Registered("", "", [], None, None, None, "", None)

  const NEW_TOKEN := SecEvent(NO_CLAIMS, None, None)

  /**
   What parsing in place leaves of a token, and the error. Decoding comes first and touches claims only; the
   subject and the event are replaced as they parse; validation comes last and takes nothing back.
   */
  function ParseOver(env: Env, prior: SecEvent, j: Json): (SecEvent, Option<TokenError>) {
    match Events.Members(j)
    case Err(e) => (prior, Some(Malformed(e)))
    case Ok(members) =>
      match ClaimsOver(env, prior.claims, members)
      case Err(e) => (prior, Some(Malformed(e)))
      case Ok(claims) =>
        match ParseEventMap(Raw(members, "events"))
        case Err(e) => (prior, Some(Malformed(e)))
        case Ok(events) => Finish(env, prior.(claims := claims), Raw(members, "sub_id"), events)
  }

  function Finish(env: Env, decoded: SecEvent, subject: Option<Json>, events: map<string, Json>)
    : (SecEvent, Option<TokenError>)
  {
    match ParseSubject(subject)
    case Err(e) => (decoded, Some(e))
    case Ok(s) =>
      var withSubject := if s.Some? then decoded.(subject := s) else decoded;
      match ParseOne(events)
      case Err(e) => (withSubject, Some(e))
      case Ok(e) =>
        var token := withSubject.(event := Some(e));
        (token, Validate(env, token))
  }

  class SecEventObject {
    var claims: Registered
    var event: Option<Events.Event>
    var subject: Option<Subject.Subject>

    /** A new token is issued now and has nothing else. */
    constructor (now: int)
      ensures Value() == NEW_TOKEN.(claims := NO_CLAIMS.(iat := Some(now)))
    {
      claims, event, subject := NO_CLAIMS.(iat := Some(now)), None, None;
    }

    function Value(): SecEvent
      reads this
    {
      SecEvent(claims, event, subject)
    }

    /** What is left in the object after a decoding error is not specified, after any other error it is. */
    method UnmarshalJSON(env: Env, j: Json) returns (error: Option<TokenError>)
      modifies this
      ensures error == ParseOver(env, old(Value()), j).1
      ensures !(error.Some? && error.value.Malformed?) ==> Value() == ParseOver(env, old(Value()), j).0
    {
      var members := Events.Members(j);
      if members.Err? {
        return Some(Malformed(members.error));
      }
      var decoded := ClaimsOver(env, claims, members.value);
      if decoded.Err? {
        return Some(Malformed(decoded.error));
      }
      var events := ParseEventMap(Raw(members.value, "events"));
      if events.Err? {
        return Some(Malformed(events.error));
      }
      claims := decoded.value;
      var parsed := ParseSubject(Raw(members.value, "sub_id"));
      if parsed.Err? {
        return Some(parsed.error);
      }
      if parsed.value.Some? {
        subject := parsed.value;
      }
      var one := ParseOne(events.value);
      if one.Err? {
        return Some(one.error);
      }
      event := Some(one.value);
      error := Validate(env, Value());
    }
  }

  // New objects and used ones

  lemma ClaimsOverNothing(env: Env, members: map<string, Json>)
    ensures ClaimsOver(env, NO_CLAIMS, members) == ParseClaims(env, members)
  {
  }

  /** Parsing into a zero object is parsing: the same trees are accepted, with the same result and the same errors. */
  lemma NewObjectIsParse(env: Env, j: Json)
    ensures var (token, error) := ParseOver(env, NEW_TOKEN, j);
            match Parse(env, j) case Ok(e) => error == None && token == e case Err(e) => error == Some(e)
  {
    match Events.Members(j) {
      case Err(_) =>
      case Ok(members) => ClaimsOverNothing(env, members);
    }
  }

  /** The claims that a tree leaves alone. */
  function Kept(prior: Registered, members: map<string, Json>): Registered {
    Registered(
      if SilentText(members, "iss") then prior.iss else "",
      if SilentText(members, "sub") then prior.sub else "",
      if SilentText(members, "aud") then prior.aud else [],
      if "exp" in members then None else prior.exp,
      if "nbf" in members then None else prior.nbf,
      if "iat" in members then None else prior.iat,
      if SilentText(members, "jti") then prior.jti else "",
      if "txn" in members then None else prior.txn)
  }

  predicate SilentText(members: map<string, Json>, key: string) {
    Raw(members, key) == None || Raw(members, key) == Some(Null)
  }

  lemma DecodingIsAlike(env: Env, prior: Registered, members: map<string, Json>)
    ensures ClaimsOver(env, prior, members).Ok? <==> ParseClaims(env, members).Ok?
    ensures ClaimsOver(env, prior, members).Ok? ==>
              var over, claims := ClaimsOver(env, prior, members).value, ParseClaims(env, members).value;
              && over.iss == (if SilentText(members, "iss") then prior.iss else claims.iss)
              && over.jti == (if SilentText(members, "jti") then prior.jti else claims.jti)
              && (SilentText(members, "iss") ==> claims.iss == "") && (SilentText(members, "jti") ==> claims.jti == "")
  {
  }

  /**
   Whatever the object held before, once parsing in place reports no error it holds a valid token. But the old
   contents can make up for what the tree lacks: the tree is acceptable by itself exactly when it has an
   issuer, a token ID and a subject of its own.
   */
  lemma AcceptedInPlaceIsValid(env: Env, prior: SecEvent, j: Json)
    requires ParseOver(env, prior, j).1 == None
    ensures TokenTheorems.Whole(env, ParseOver(env, prior, j).0)
    ensures var members := Events.Members(j).value;
            Parse(env, j).Ok? <==>
              !SilentText(members, "iss") && !SilentText(members, "jti") && Raw(members, "sub_id").Some?
  {
    DecodingIsAlike(env, prior.claims, Events.Members(j).value);
  }

  /**
   Parsing an acceptable tree into a used object gives the token of the tree if and only if the object held
   no claim that the tree leaves alone; an old transaction ID, say, survives a tree without one.
   */
  lemma ReuseIsSafe(env: Env, prior: SecEvent, j: Json)
    requires Parse(env, j).Ok?
    ensures ParseOver(env, prior, j).1 == None
    ensures ParseOver(env, prior, j).0 == Parse(env, j).value <==>
            Kept(prior.claims, Events.Members(j).value) == NO_CLAIMS
  {
    var members := Events.Members(j).value;
    var claims := ParseClaims(env, members).value;
    ClaimsOverSome(env, prior.claims, members);
    HeadIsAlike(env, prior.claims, members);
    var over := ClaimsOver(env, prior.claims, members).value;
    var events := ParseEventMap(Raw(members, "events")).value;
    FinishIsAlike(env, prior.(claims := over), Parse(env, j).value, Raw(members, "sub_id"), events);
  }

  /** A token about an assurance level, without a transaction ID. */
  const EXAMPLE := SecEvent(
    NO_CLAIMS.(iss := "https://issuer.example", jti := "1"),
    Some(Events.Event(Events.ASSURANCE_CHANGE, None, Events.Assurance("nist-aal2", "nist-aal1", "increase"))),
    Some(Subject.Opaque("x")))

  /** Its tree, parsed into an object that held a transaction ID, is accepted and leaves that ID in the token. */
  lemma OldTransactionSurvives(env: Env)
    ensures var prior, j := NEW_TOKEN.(claims := NO_CLAIMS.(txn := Some("old"))), Print(EXAMPLE);
            && Parse(env, j) == Ok(EXAMPLE)
            && ParseOver(env, prior, j).1 == None && ParseOver(env, prior, j).0 != EXAMPLE
  {
    var prior, j := NEW_TOKEN.(claims := NO_CLAIMS.(txn := Some("old"))), Print(EXAMPLE);
    ExampleIsSound(env);
    TokenTheorems.TokenRoundTrip(env, EXAMPLE);
    NoTransactionIsPrinted(EXAMPLE);
    TransactionIsKept(prior.claims, Events.Members(j).value);
    ReuseIsSafe(env, prior, j);
  }

  lemma ExampleIsSound(env: Env)
    ensures TokenTheorems.Sound(env, EXAMPLE) && TokenTheorems.Canonical(EXAMPLE) == EXAMPLE
  {
    TrimSpace.TrimOfTrimmed("x");
  }

  lemma NoTransactionIsPrinted(e: SecEvent)
    requires e.claims.txn == None
    ensures Events.Members(Print(e)).Ok? && "txn" !in Events.Members(Print(e)).value
  {
    assert "txn" !in PrintNames(e.claims);
    assert "txn" !in PrintRest(e.claims);
  }

  lemma TransactionIsKept(prior: Registered, members: map<string, Json>)
    requires prior.txn.Some? && "txn" !in members
    ensures Kept(prior, members) != NO_CLAIMS
  {
    assert Kept(prior, members).txn == prior.txn;
  }

  lemma TextOverIs(prior: string, members: map<string, Json>, key: string)
    requires TextField(members, key).Ok?
    ensures TextOver(prior, members, key) == if SilentText(members, key) then Ok(prior) else TextField(members, key)
    ensures SilentText(members, key) ==> TextField(members, key) == Ok("")
  {
  }

  lemma AudienceOverIs(prior: seq<string>, members: map<string, Json>)
    requires ParseAudience(Raw(members, "aud")).Ok?
    ensures AudienceOver(prior, members) ==
            if SilentText(members, "aud") then Ok(prior) else ParseAudience(Raw(members, "aud"))
    ensures SilentText(members, "aud") ==> ParseAudience(Raw(members, "aud")) == Ok([])
  {
  }

  lemma ClaimsOverSome(env: Env, prior: Registered, members: map<string, Json>)
    requires ParseClaims(env, members).Ok?
    ensures ClaimsOver(env, prior, members).Ok?
    ensures ClaimsOver(env, prior, members) == ParseClaims(env, members) <==> Kept(prior, members) == NO_CLAIMS
  {
    TextOverIs(prior.iss, members, "iss");
    TextOverIs(prior.sub, members, "sub");
    TextOverIs(prior.jti, members, "jti");
    AudienceOverIs(prior.aud, members);
  }

  lemma HeadIsAlike(env: Env, prior: Registered, members: map<string, Json>)
    requires ParseClaims(env, members).Ok? && ValidateHead(ParseClaims(env, members).value) == None
    requires ClaimsOver(env, prior, members).Ok?
    ensures ValidateHead(ClaimsOver(env, prior, members).value) == None
  {
  }

  /** Only the claims can differ, once subject and event are replaced. */
  lemma FinishIsAlike(
      env: Env, decoded: SecEvent, parsed: SecEvent, subject: Option<Json>, events: map<string, Json>)
    requires ParseSubject(subject) == Ok(parsed.subject) && parsed.subject.Some?
    requires ParseOne(events).Ok? && parsed.event == Some(ParseOne(events).value)
    requires Validate(env, parsed) == None && ValidateHead(decoded.claims) == None
    ensures Finish(env, decoded, subject, events) == (parsed.(claims := decoded.claims), None)
  {
  }
}
