/**
 Three of the CAEP events: flattened payload and metadata members, the parsers, the registry's dispatch
 on the event type, and validation.
 */
module Events {
  import opened Wrappers
  import opened Json

  const CREDENTIAL_CHANGE := "https://schemas.openid.net/secevent/caep/event-type/credential-change"
  const ASSURANCE_CHANGE := "https://schemas.openid.net/secevent/caep/event-type/assurance-level-change"
  const CLAIMS_CHANGE := "https://schemas.openid.net/secevent/caep/event-type/token-claims-change"

  type Int64 = i: int | IsInt64(i)

  predicate IsInt64(i: int) {
    -0x8000_0000_0000_0000 <= i < 0x8000_0000_0000_0000
  }

  /** A byte in the source, of which four values have a name. */
  datatype InitiatingEntity = Admin | User | Policy | System | Unnamed(code: int)

  /** The optional members of every event; a nil map is absent, an empty one is not. */
  datatype Metadata = Metadata(
    eventTimestamp: Option<Int64>,
    initiatingEntity: Option<InitiatingEntity>,
    reasonAdmin: Option<map<string, string>>,
    reasonUser: Option<map<string, string>>)

  const NO_METADATA := Metadata(None, None, None, None)

  datatype Body =
    | Credential(
        credentialType: string, changeType: string, friendlyName: Option<string>,
        x509Issuer: Option<string>, x509Serial: Option<string>, fido2Aaguid: Option<string>)
    | Assurance(currentLevel: string, previousLevel: string, direction: string)
    | Claims(claims: Option<map<string, Any>>)

  /** An event carries its type beside its body, and the two need not agree. */
  datatype Event = Event(typ: string, metadata: Option<Metadata>, body: Body)

  datatype EventError =
    | Unregistered(typ: string)
    | Malformed(member: string)
    | Invalid(field: string)
    | WrongType(parsed: string)

  /** The type a parsed body is given. */
  function TypeOf(b: Body): string {
    match b
    case Credential(_, _, _, _, _, _) => CREDENTIAL_CHANGE
    case Assurance(_, _, _) => ASSURANCE_CHANGE
    case Claims(_) => CLAIMS_CHANGE
  }

  // Validation

  predicate IsCredentialType(t: string) {
    t in {"password", "pin", "x509", "fido2-platform", "fido2-roaming", "fido-u2f", "verifiable-credential",
          "phone-voice", "phone-sms", "app"}
  }

  predicate IsChangeType(t: string) {
    t in {"create", "revoke", "update", "delete"}
  }

  predicate IsLevel(l: string) {
    l in {"nist-aal1", "nist-aal2", "nist-aal3"}
  }

  function ValidateMetadata(m: Option<Metadata>): Option<EventError> {
    if m.Some? && m.value.eventTimestamp.Some? && m.value.eventTimestamp.value < 0
    then Some(Invalid("event_timestamp"))
    else None
  }

  function ValidateBody(b: Body): Option<EventError> {
    match b
    case Credential(typ, change, _, issuer, serial, _) =>
      if !IsCredentialType(typ) then Some(Invalid("credential_type"))
      else if !IsChangeType(change) then Some(Invalid("change_type"))
      else if issuer.Some? != serial.Some? then Some(Invalid("x509"))
      else None
    case Assurance(current, previous, direction) =>
      if !IsLevel(current) then Some(Invalid("current_level"))
      else if !IsLevel(previous) then Some(Invalid("previous_level"))
      else if direction != "increase" && direction != "decrease" then Some(Invalid("change_direction"))
      else if current == previous then Some(Invalid("levels"))
      else None
    case Claims(claims) =>
      if claims.None? || claims.value == map[] then Some(Invalid("claims")) else None
  }

  function Validate(e: Event): Option<EventError> {
    if ValidateMetadata(e.metadata).Some? then ValidateMetadata(e.metadata) else ValidateBody(e.body)
  }

  // Printing

  function PrintTimestamp(o: Option<Int64>): Option<Json> {
    match o case None => None case Some(i) => Some(Int(i))
  }

  function EntityName(e: InitiatingEntity): string {
    match e
    case Admin => "admin"
    case User => "user"
    case Policy => "policy"
    case System => "system"
    case Unnamed(_) => "unknown"
  }

  function PrintEntity(o: Option<InitiatingEntity>): Option<Json> {
    match o case None => None case Some(e) => Some(Str(EntityName(e)))
  }

  /** An empty map is left out like a nil one. */
  function PrintReasons(o: Option<map<string, string>>): Option<Json> {
    if o.None? || o.value == map[] then None else Some(FromTexts(o.value))
  }

  function PrintMetadata(m: Metadata): map<string, Json> {
    Optional("event_timestamp", PrintTimestamp(m.eventTimestamp))
    + Optional("initiating_entity", PrintEntity(m.initiatingEntity))
    + Optional("reason_admin", PrintReasons(m.reasonAdmin))
    + Optional("reason_user", PrintReasons(m.reasonUser))
  }

  function PrintClaims(c: Option<map<string, Any>>): Json {
    match c case None => Null case Some(m) => Encode(Dict(m))
  }

  function PrintBody(b: Body): map<string, Json> {
    match b
    case Credential(typ, change, name, issuer, serial, aaguid) =>
      One("credential_type", Str(typ)) + One("change_type", Str(change))
      + (Optional("friendly_name", PrintText(name)) + Optional("x509_issuer", PrintText(issuer))
         + Optional("x509_serial", PrintText(serial)) + Optional("fido2_aaguid", PrintText(aaguid)))
    case Assurance(current, previous, direction) =>
      One("current_level", Str(current)) + One("previous_level", Str(previous))
      + One("change_direction", Str(direction))
    case Claims(claims) => One("claims", PrintClaims(claims))
  }

  /** Body and metadata share one object. */
  function Payload(e: Event): Json {
    Obj(PrintBody(e.body) + match e.metadata case None => map[] case Some(m) => PrintMetadata(m))
  }

  // Parsing

  const METADATA_KEYS := {"event_timestamp", "initiating_entity", "reason_admin", "reason_user"}

  function ParseTimestamp(o: Option<Json>): Result<Option<Int64>, string> {
    match o
    case None => Ok(None)
    case Some(Null) => Ok(None)
    case Some(Int(i)) => if IsInt64(i) then Ok(Some(i)) else Err("event_timestamp")
    case Some(_) => Err("event_timestamp")
  }

  function EntityNamed(name: string): Result<InitiatingEntity, string> {
    if name == "admin" then Ok(Admin)
    else if name == "user" then Ok(User)
    else if name == "policy" then Ok(Policy)
    else if name == "system" then Ok(System)
    else Err("initiating_entity")
  }

  function ParseEntity(o: Option<Json>): Result<Option<InitiatingEntity>, string> {
    match o
    case None => Ok(None)
    case Some(Null) => Ok(None)
    case Some(Str(s)) =>
      var e :- EntityNamed(s);
      Ok(Some(e))
    case Some(_) => Err("initiating_entity")
  }

  function ParseReasons(o: Option<Json>): Result<Option<map<string, string>>, string> {
    match o
    case None => Ok(None)
    case Some(Null) => Ok(None)
    case Some(Obj(members)) =>
      var m :- Texts(Obj(members));
      Ok(Some(m))
    case Some(_) => Err("reason")
  }

  /** Metadata is allocated as soon as one of its members is there, even as null. */
  function ParseMetadata(members: map<string, Json>): Result<Option<Metadata>, string> {
    var timestamp :- ParseTimestamp(Raw(members, "event_timestamp"));
    var entity :- ParseEntity(Raw(members, "initiating_entity"));
    var admin :- ParseReasons(Raw(members, "reason_admin"));
    var user :- ParseReasons(Raw(members, "reason_user"));
    Ok(if METADATA_KEYS !! members.Keys then None else Some(Metadata(timestamp, entity, admin, user)))
  }

  function ParseClaims(o: Option<Json>): Result<Option<map<string, Any>>, string> {
    match o
    case None => Ok(None)
    case Some(Null) => Ok(None)
    case Some(Obj(members)) => Ok(Some(Decode(Obj(members)).entries))
    case Some(_) => Err("claims")
  }

  datatype Kind = CredentialKind | AssuranceKind | ClaimsKind

  function ParseBody(kind: Kind, members: map<string, Json>): Result<Body, string> {
    match kind
    case CredentialKind =>
      var typ :- TextField(members, "credential_type");
      var change :- TextField(members, "change_type");
      var name :- NullableText(members, "friendly_name");
      var issuer :- NullableText(members, "x509_issuer");
      var serial :- NullableText(members, "x509_serial");
      var aaguid :- NullableText(members, "fido2_aaguid");
      Ok(Credential(typ, change, name, issuer, serial, aaguid))
    case AssuranceKind =>
      var current :- TextField(members, "current_level");
      var previous :- TextField(members, "previous_level");
      var direction :- TextField(members, "change_direction");
      Ok(Assurance(current, previous, direction))
    case ClaimsKind =>
      var claims :- ParseClaims(Raw(members, "claims"));
      Ok(Claims(claims))
  }

  /** The registered parsers. */
  function Parser(typ: string): Option<Kind> {
    if typ == CREDENTIAL_CHANGE then Some(CredentialKind)
    else if typ == ASSURANCE_CHANGE then Some(AssuranceKind)
    else if typ == CLAIMS_CHANGE then Some(ClaimsKind)
    else None
  }

  /** Null reads as an empty object, and validation then rejects it. */
  function Members(j: Json): Result<map<string, Json>, string> {
    match j
    case Null => Ok(map[])
    case Obj(members) => Ok(members)
    case _ => Err("object")
  }

  /** A parser sets the type itself and ends with validation. */
  function RunParser(kind: Kind, j: Json): Result<Event, EventError> {
    match Members(j)
    case Err(e) => Err(Malformed(e))
    case Ok(members) =>
      match ParseBody(kind, members)
      case Err(e) => Err(Malformed(e))
      case Ok(body) =>
        match ParseMetadata(members)
        case Err(e) => Err(Malformed(e))
        case Ok(metadata) =>
          var event := Event(TypeOf(body), metadata, body);
          match Validate(event) case Some(error) => Err(error) case None => Ok(event)
  }

  function Parse(typ: string, j: Json): Result<Event, EventError> {
    match Parser(typ)
    case None => Err(Unregistered(typ))
    case Some(kind) =>
      var event :- RunParser(kind, j);
      if event.typ != typ then Err(WrongType(event.typ)) else Ok(event)
  }
}
