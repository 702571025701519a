/** Security event tokens, with one event or several: claims, a subject, and events by type. */
module Token {
  import opened Wrappers
  import opened Json
  import Events
  import Subject

  /** The registered claims of a token and its transaction ID; dates count seconds. */
  datatype Registered = Registered(
    iss: string, sub: string, aud: seq<string>, exp: Option<int>, nbf: Option<int>, iat: Option<int>,
    jti: string, txn: Option<string>)

  datatype SecEvent = SecEvent(claims: Registered, event: Option<Events.Event>, subject: Option<Subject.Subject>)

  datatype MultiSecEvent =
    MultiSecEvent(claims: Registered, events: map<string, Events.Event>, subject: Option<Subject.Subject>)

  /** Whether addresses and URLs parse, and what number a quoted date stands for. */
  datatype Env = Env(syntax: Subject.Syntax, quoted: string -> Option<real>)

  datatype TokenError =
    | Malformed(member: string)
    | BadSubject(cause: Subject.ParseError)
    | NotOneEvent
    | BadEvents
    | Missing(claim: string)
    | InvalidEvent
    | InvalidSubject

  // Validation

  function ValidateHead(c: Registered): Option<TokenError> {
    if c.iss == "" then Some(Missing("iss"))
    else if c.jti == "" then Some(Missing("jti"))
    else None
  }

  function ValidateSubject(env: Env, s: Subject.Subject): Option<TokenError> {
    if Subject.Validate(env.syntax, s).Some? then Some(InvalidSubject) else None
  }

  function Validate(env: Env, e: SecEvent): Option<TokenError> {
    if ValidateHead(e.claims).Some? then ValidateHead(e.claims)
    else if e.event.None? then Some(Missing("event"))
    else if e.subject.None? then Some(Missing("sub_id"))
    else if Events.Validate(e.event.value).Some? then Some(InvalidEvent)
    else ValidateSubject(env, e.subject.value)
  }

  function ValidateMulti(env: Env, e: MultiSecEvent): Option<TokenError> {
    if ValidateHead(e.claims).Some? then ValidateHead(e.claims)
    else if e.events == map[] then Some(Missing("events"))
    else if e.subject.None? then Some(Missing("sub_id"))
    else if exists t | t in e.events :: Events.Validate(e.events[t]).Some? then Some(InvalidEvent)
    else ValidateSubject(env, e.subject.value)
  }

  // Printing

  /** An empty string is left out. */
  function PrintNonEmpty(s: string): Option<Json> {
    if s == "" then None else Some(Str(s))
  }

  /** Audiences are printed as an array, even when there is only one. */
  function PrintAudience(aud: seq<string>): Option<Json> {
    if aud == [] then None else Some(Arr(seq(|aud|, i requires 0 <= i < |aud| => Str(aud[i]))))
  }

  function PrintDate(d: Option<int>): Option<Json> {
    match d case None => None case Some(i) => Some(Int(i))
  }

  function PrintSubject(s: Option<Subject.Subject>): Json {
    match s case None => Null case Some(v) => Subject.Marshal(v)
  }

  function PrintWith(c: Registered, s: Option<Subject.Subject>, events: map<string, Json>): Json {
    Obj(One("sub_id", PrintSubject(s)) + One("events", Obj(events)) + (PrintNames(c) + PrintRest(c)))
  }

  function PrintNames(c: Registered): map<string, Json> {
    Optional("iss", PrintNonEmpty(c.iss)) + Optional("sub", PrintNonEmpty(c.sub))
    + Optional("aud", PrintAudience(c.aud)) + Optional("jti", PrintNonEmpty(c.jti))
  }

  function PrintRest(c: Registered): map<string, Json> {
    Optional("exp", PrintDate(c.exp)) + Optional("nbf", PrintDate(c.nbf))
    + Optional("iat", PrintDate(c.iat)) + Optional("txn", PrintText(c.txn))
  }

  /** The event goes under its own type. */
  function Print(e: SecEvent): Json {
    PrintWith(e.claims, e.subject,
              match e.event case None => map[] case Some(v) => map[v.typ := Events.Payload(v)])
  }

  /** Events go under the keys they are filed under. */
  function PrintMulti(e: MultiSecEvent): Json {
    PrintWith(e.claims, e.subject, map t | t in e.events :: Events.Payload(e.events[t]))
  }

  // Parsing

  /** A date counts whole seconds, rounded down. */
  function ParseDate(env: Env, o: Option<Json>): Result<Option<int>, string> {
    match o
    case None => Ok(None)
    case Some(Null) => Ok(None)
    case Some(Int(i)) => Ok(Some(i))
    case Some(Frac(r)) => Ok(Some(r.Floor))
    case Some(Str(s)) => (
      match env.quoted(s)
      case Some(r) => Ok(Some(r.Floor))
      case None => Err("date"))
    case Some(_) => Err("date")
  }

  function ParseAudience(o: Option<Json>): Result<seq<string>, string> {
    match o
    case None => Ok([])
    case Some(Null) => Ok([])
    case Some(Str(s)) => Ok([s])
    case Some(Arr(items)) =>
      if forall j | j in items :: j.Str?
      then Ok(seq(|items|, i requires 0 <= i < |items| => TextOf(items[i])))
      else Err("aud")
    case Some(_) => Err("aud")
  }

  function ParseClaims(env: Env, members: map<string, Json>): Result<Registered, string> {
    var iss :- TextField(members, "iss");
    var sub :- TextField(members, "sub");
    var aud :- ParseAudience(Raw(members, "aud"));
    var jti :- TextField(members, "jti");
    var exp :- ParseDate(env, Raw(members, "exp"));
    var nbf :- ParseDate(env, Raw(members, "nbf"));
    var iat :- ParseDate(env, Raw(members, "iat"));
    var txn :- NullableText(members, "txn");
    Ok(Registered(iss, sub, aud, exp, nbf, iat, jti, txn))
  }

  function ParseEventMap(o: Option<Json>): Result<map<string, Json>, string> {
    match o
    case None => Ok(map[])
    case Some(Null) => Ok(map[])
    case Some(Obj(members)) => Ok(members)
    case Some(_) => Err("events")
  }

  function ParseSubject(o: Option<Json>): Result<Option<Subject.Subject>, TokenError> {
    match o
    case None => Ok(None)
    case Some(j) =>
      match Subject.Parse(j)
      case Err(e) => Err(BadSubject(e))
      case Ok(s) => Ok(Some(s))
  }

  datatype Head = Head(claims: Registered, events: map<string, Json>, subject: Option<Subject.Subject>)

  /** What both kinds of token share: claims, raw events, parsed subject. */
  function ParseHead(env: Env, j: Json): Result<Head, TokenError> {
    match Events.Members(j)
    case Err(e) => Err(Malformed(e))
    case Ok(members) =>
      match ParseClaims(env, members)
      case Err(e) => Err(Malformed(e))
      case Ok(claims) =>
        match ParseEventMap(Raw(members, "events"))
        case Err(e) => Err(Malformed(e))
        case Ok(events) =>
          var subject :- ParseSubject(Raw(members, "sub_id"));
          Ok(Head(claims, events, subject))
  }

  function ParseOne(events: map<string, Json>): Result<Events.Event, TokenError> {
    if exists t | t in events :: events.Keys == {t} then
      var t :| t in events && events.Keys == {t};
      match Events.Parse(t, events[t]) case Ok(e) => Ok(e) case Err(_) => Err(BadEvents)
    else Err(NotOneEvent)
  }

  function Parse(env: Env, j: Json): Result<SecEvent, TokenError> {
    var head :- ParseHead(env, j);
    var event :- ParseOne(head.events);
    var e := SecEvent(head.claims, Some(event), head.subject);
    match Validate(env, e) case Some(error) => Err(error) case None => Ok(e)
  }

  /** One event that does not parse spoils the token. */
  function ParseAll(events: map<string, Json>): Result<map<string, Events.Event>, TokenError> {
    if forall t | t in events :: Events.Parse(t, events[t]).Ok?
    then Ok(map t | t in events :: Events.Parse(t, events[t]).value)
    else Err(BadEvents)
  }

  function ParseMulti(env: Env, j: Json): Result<MultiSecEvent, TokenError> {
    var head :- ParseHead(env, j);
    var events :- ParseAll(head.events);
    var e := MultiSecEvent(head.claims, events, head.subject);
    match ValidateMulti(env, e) case Some(error) => Err(error) case None => Ok(e)
  }
}
