/** Printing an event and parsing it again. */
module EventTheorems {
  import opened Wrappers
  import opened Json
  import opened Sequences
  import opened Events

  function KindOf(b: Body): Kind {
    match b
    case Credential(_, _, _, _, _, _) => CredentialKind
    case Assurance(_, _, _) => AssuranceKind
    case Claims(_) => ClaimsKind
  }

  function NormalReasons(o: Option<map<string, string>>): Option<map<string, string>> {
    if o == Some(map[]) then None else o
  }

  /** Metadata without the empty maps, and without itself when nothing is left. */
  function Normal(o: Option<Metadata>): Option<Metadata> {
    match o
    case None => None
    case Some(m) =>
      var n := m.(reasonAdmin := NormalReasons(m.reasonAdmin), reasonUser := NormalReasons(m.reasonUser));
      if n == NO_METADATA then None else Some(n)
  }

  function Normalized(e: Event): Event {
    e.(metadata := Normal(e.metadata))
  }

  /** The entity, if any, has a name. */
  predicate EntityNamable(o: Option<Metadata>) {
    o.Some? && o.value.initiatingEntity.Some? ==> !o.value.initiatingEntity.value.Unnamed?
  }

  /** The type is that of the body, all values are valid, and the entity has a name. */
  predicate Sound(e: Event) {
    e.typ == TypeOf(e.body) && Validate(e) == None && EntityNamable(e.metadata)
  }

  // What is valid

  const CREDENTIAL_TYPES :=
    ["password", "pin", "x509", "fido2-platform", "fido2-roaming", "fido-u2f", "verifiable-credential", "phone-voice",
     "phone-sms", "app"]

  const LEVELS := ["nist-aal1", "nist-aal2", "nist-aal3"]

  /** What can be wrong with a body, in the order in which it is reported. */
  function BodyFaults(b: Body): seq<Fault<EventError>> {
    match b
    case Credential(typ, change, _, issuer, serial, _) =>
      [(typ !in CREDENTIAL_TYPES, Invalid("credential_type")),
       (change !in ["create", "revoke", "update", "delete"], Invalid("change_type")),
       (issuer != None && serial == None, Invalid("x509")),
       (issuer == None && serial != None, Invalid("x509"))]
    case Assurance(current, previous, direction) =>
      [(current !in LEVELS, Invalid("current_level")),
       (previous !in LEVELS, Invalid("previous_level")),
       (direction !in ["increase", "decrease"], Invalid("change_direction")),
       (current == previous, Invalid("levels"))]
    case Claims(claims) =>
      [(claims == None, Invalid("claims")), (claims == Some(map[]), Invalid("claims"))]
  }

  /** An event is valid exactly when none of these is wrong and its timestamp, if any, is not negative. */
  lemma EventFaults(e: Event)
    ensures Validate(e) ==
            First([(e.metadata.Some? && e.metadata.value.eventTimestamp.Some? &&
                    e.metadata.value.eventTimestamp.value < 0, Invalid("event_timestamp"))] + BodyFaults(e.body))
  {
    var late := e.metadata.Some? && e.metadata.value.eventTimestamp.Some? && e.metadata.value.eventTimestamp.value < 0;
    var timestamp: seq<Fault<EventError>> := [(late, Invalid("event_timestamp"))];
    FirstOfTwo(timestamp, BodyFaults(e.body));
    BodyFaultsFound(e.body);
    assert First(timestamp) == if late then Some(Invalid("event_timestamp")) else None;
  }

  lemma BodyFaultsFound(b: Body)
    ensures ValidateBody(b) == First(BodyFaults(b))
  {
    var s := BodyFaults(b);
    FirstIsNone(s);
    var k := if s[0].0 then 0 else if s[1].0 then 1 else if b.Claims? then 0 else if s[2].0 then 2 else 3;
    if s[k].0 {
      FirstIs(s, k);
    }
  }

  /** Reading one of six members, of which the last four may be left out. */
  lemma SixMembers(
      a: string, b: string, c: string, d: string, e: string, f: string,
      i: Json, j: Json, k: Option<Json>, l: Option<Json>, m: Option<Json>, n: Option<Json>)
    requires a != b && a != c && a != d && a != e && a != f && b != c && b != d && b != e && b != f
    requires c != d && c != e && c != f && d != e && d != f && e != f
    ensures var all := One(a, i) + One(b, j) + (Optional(c, k) + Optional(d, l) + Optional(e, m) + Optional(f, n));
            && Raw(all, a) == Some(i) && Raw(all, b) == Some(j) && Raw(all, c) == k
            && Raw(all, d) == l && Raw(all, e) == m && Raw(all, f) == n
            && all.Keys <= {a, b, c, d, e, f}
  {
    FourMembers(c, d, e, f, k, l, m, n);
    TwoAndMore(a, b, i, j, Optional(c, k) + Optional(d, l) + Optional(e, m) + Optional(f, n));
  }

  /** Metadata has its own member names. */
  lemma MetadataKeys(m: Metadata)
    ensures PrintMetadata(m).Keys <= METADATA_KEYS
  {
    FourMembers(
      "event_timestamp", "initiating_entity", "reason_admin", "reason_user", PrintTimestamp(m.eventTimestamp),
      PrintEntity(m.initiatingEntity), PrintReasons(m.reasonAdmin), PrintReasons(m.reasonUser));
  }

  lemma CredentialMembers(b: Body)
    requires b.Credential?
    ensures var all := PrintBody(b);
            && Raw(all, "credential_type") == Some(Str(b.credentialType))
            && Raw(all, "change_type") == Some(Str(b.changeType))
            && Raw(all, "friendly_name") == PrintText(b.friendlyName)
            && Raw(all, "x509_issuer") == PrintText(b.x509Issuer)
            && Raw(all, "x509_serial") == PrintText(b.x509Serial)
            && Raw(all, "fido2_aaguid") == PrintText(b.fido2Aaguid)
            && all.Keys <=
               {"credential_type", "change_type", "friendly_name", "x509_issuer", "x509_serial", "fido2_aaguid"}
  {
    SixMembers(
      "credential_type", "change_type", "friendly_name", "x509_issuer", "x509_serial", "fido2_aaguid",
      Str(b.credentialType), Str(b.changeType), PrintText(b.friendlyName), PrintText(b.x509Issuer),
      PrintText(b.x509Serial), PrintText(b.fido2Aaguid));
  }

  const BODY_KEYS :=
    {"credential_type", "change_type", "friendly_name", "x509_issuer", "x509_serial", "fido2_aaguid",
     "current_level", "previous_level", "change_direction", "claims"}

  /** And so have bodies: the two sets of names never meet. */
  lemma BodyKeys(b: Body)
    ensures PrintBody(b).Keys <= BODY_KEYS && BODY_KEYS !! METADATA_KEYS
  {
    match b
    case Credential(_, _, _, _, _, _) => CredentialMembers(b);
    case _ =>
  }

  /** A body's name is read from the body. */
  lemma ReadFromBody(b: Body, others: map<string, Json>, key: string)
    requires others.Keys <= METADATA_KEYS && key in BODY_KEYS
    ensures Raw(PrintBody(b) + others, key) == Raw(PrintBody(b), key)
  {
    BodyKeys(b);
  }

  // The body

  lemma CredentialParsed(b: Body, others: map<string, Json>)
    requires b.Credential? && others.Keys <= METADATA_KEYS
    ensures ParseBody(CredentialKind, PrintBody(b) + others) == Ok(b)
  {
    CredentialMembers(b);
    ReadFromBody(b, others, "credential_type");
    ReadFromBody(b, others, "change_type");
    ReadFromBody(b, others, "friendly_name");
    ReadFromBody(b, others, "x509_issuer");
    ReadFromBody(b, others, "x509_serial");
    ReadFromBody(b, others, "fido2_aaguid");
    ReadCredential(PrintBody(b) + others, b);
  }

  lemma ReadCredential(all: map<string, Json>, b: Body)
    requires b.Credential?
    requires Raw(all, "credential_type") == Some(Str(b.credentialType))
    requires Raw(all, "change_type") == Some(Str(b.changeType))
    requires Raw(all, "friendly_name") == PrintText(b.friendlyName)
    requires Raw(all, "x509_issuer") == PrintText(b.x509Issuer)
    requires Raw(all, "x509_serial") == PrintText(b.x509Serial)
    requires Raw(all, "fido2_aaguid") == PrintText(b.fido2Aaguid)
    ensures ParseBody(CredentialKind, all) == Ok(b)
  {
  }

  lemma AssuranceParsed(b: Body, others: map<string, Json>)
    requires b.Assurance? && others.Keys <= METADATA_KEYS
    ensures ParseBody(AssuranceKind, PrintBody(b) + others) == Ok(b)
  {
    var all := PrintBody(b) + others;
    assert Raw(all, "current_level") == Some(Str(b.currentLevel));
    assert Raw(all, "previous_level") == Some(Str(b.previousLevel));
    assert Raw(all, "change_direction") == Some(Str(b.direction));
  }

  lemma ClaimsParsed(b: Body, others: map<string, Json>)
    requires b.Claims? && others.Keys <= METADATA_KEYS
    ensures ParseBody(ClaimsKind, PrintBody(b) + others) == Ok(b)
  {
    assert Raw(PrintBody(b) + others, "claims") == Some(PrintClaims(b.claims));
    if b.claims.Some? {
      DecodeEncoded(Dict(b.claims.value));
    }
  }

  /** A body printed with any metadata reads back as it was. */
  lemma BodyParsed(b: Body, others: map<string, Json>)
    requires others.Keys <= METADATA_KEYS
    ensures ParseBody(KindOf(b), PrintBody(b) + others) == Ok(b)
  {
    match b
    case Credential(_, _, _, _, _, _) => CredentialParsed(b, others);
    case Assurance(_, _, _) => AssuranceParsed(b, others);
    case Claims(_) => ClaimsParsed(b, others);
  }

  /** What one kind of event prints, another kind never accepts. */
  lemma ForeignBodyIsRejected(kind: Kind, b: Body, others: map<string, Json>)
    requires kind != KindOf(b) && others.Keys <= METADATA_KEYS
    ensures var r := ParseBody(kind, PrintBody(b) + others);
            r.Ok? ==> ValidateBody(r.value) != None
  {
    var key := MainKey(kind);
    ForeignKey(kind, b);
    ReadFromBody(b, others, key);
    MainKeyIsRequired(kind, PrintBody(b) + others);
  }

  /** A member each kind of event must have. */
  function MainKey(kind: Kind): string {
    match kind
    case CredentialKind => "credential_type"
    case AssuranceKind => "current_level"
    case ClaimsKind => "claims"
  }

  lemma ForeignKey(kind: Kind, b: Body)
    requires kind != KindOf(b)
    ensures Raw(PrintBody(b), MainKey(kind)) == None && MainKey(kind) in BODY_KEYS
  {
    if b.Credential? {
      CredentialMembers(b);
    }
  }

  lemma MainKeyIsRequired(kind: Kind, members: map<string, Json>)
    requires Raw(members, MainKey(kind)) == None
    ensures ParseBody(kind, members).Ok? ==> ValidateBody(ParseBody(kind, members).value) != None
  {
  }

  // The metadata

  lemma ReasonsParsed(o: Option<map<string, string>>)
    ensures ParseReasons(PrintReasons(o)) == Ok(NormalReasons(o))
  {
    if o.Some? {
      TextsPrinted(o.value);
    }
  }

  predicate HoldsMetadata(all: map<string, Json>, m: Metadata) {
    && Raw(all, "event_timestamp") == PrintTimestamp(m.eventTimestamp)
    && Raw(all, "initiating_entity") == PrintEntity(m.initiatingEntity)
    && Raw(all, "reason_admin") == PrintReasons(m.reasonAdmin)
    && Raw(all, "reason_user") == PrintReasons(m.reasonUser)
  }

  lemma MetadataMembers(m: Metadata, body: map<string, Json>)
    requires body.Keys !! METADATA_KEYS
    ensures HoldsMetadata(body + PrintMetadata(m), m)
  {
    FourMembers(
      "event_timestamp", "initiating_entity", "reason_admin", "reason_user", PrintTimestamp(m.eventTimestamp),
      PrintEntity(m.initiatingEntity), PrintReasons(m.reasonAdmin), PrintReasons(m.reasonUser));
    assert "event_timestamp" in METADATA_KEYS && "initiating_entity" in METADATA_KEYS;
    assert "reason_admin" in METADATA_KEYS && "reason_user" in METADATA_KEYS;
  }

  /** Metadata is there again exactly when something of it was printed. */
  lemma MetadataAppears(m: Metadata, all: map<string, Json>)
    requires HoldsMetadata(all, m)
    ensures METADATA_KEYS !! all.Keys <==> Normal(Some(m)) == None
  {
    assert METADATA_KEYS !! all.Keys <==>
      "event_timestamp" !in all && "initiating_entity" !in all && "reason_admin" !in all && "reason_user" !in all;
  }

  lemma EntityParsed(o: Option<InitiatingEntity>)
    ensures var r := ParseEntity(PrintEntity(o));
            if o.Some? && o.value.Unnamed? then r == Err("initiating_entity") else r == Ok(o)
  {
  }

  lemma MetadataParsed(m: Metadata, all: map<string, Json>)
    requires HoldsMetadata(all, m)
    ensures ParseMetadata(all) ==
            if EntityNamable(Some(m)) then Ok(Normal(Some(m))) else Err("initiating_entity")
  {
    MetadataAppears(m, all);
    EntityParsed(m.initiatingEntity);
    ReasonsParsed(m.reasonAdmin);
    ReasonsParsed(m.reasonUser);
  }

  lemma NoMetadataParsed(body: map<string, Json>)
    requires body.Keys !! METADATA_KEYS
    ensures ParseMetadata(body) == Ok(None)
  {
    assert "event_timestamp" in METADATA_KEYS && "initiating_entity" in METADATA_KEYS;
    assert "reason_admin" in METADATA_KEYS && "reason_user" in METADATA_KEYS;
  }

  // The event

  lemma NormalizedIsValidAlike(e: Event)
    ensures Validate(Normalized(e)) == Validate(e)
    ensures Normal(Normal(e.metadata)) == Normal(e.metadata)
  {
  }

  /** What a parser makes of members it reads into a body and metadata. */
  lemma ParserEnds(kind: Kind, members: map<string, Json>, body: Body, metadata: Result<Option<Metadata>, string>)
    requires ParseBody(kind, members) == Ok(body) && ParseMetadata(members) == metadata
    ensures RunParser(kind, Obj(members)) ==
            match metadata
            case Err(e) => Err(Malformed(e))
            case Ok(m) =>
              var event := Event(TypeOf(body), m, body);
              if Validate(event).Some? then Err(Validate(event).value) else Ok(event)
  {
  }

  /** What the members of a printed event are read as. */
  lemma MembersParsed(e: Event)
    ensures var members := Payload(e).members;
            && ParseBody(KindOf(e.body), members) == Ok(e.body)
            && ParseMetadata(members) ==
               if EntityNamable(e.metadata) then Ok(Normal(e.metadata)) else Err("initiating_entity")
  {
    BodyKeys(e.body);
    match e.metadata
    case None =>
      BodyParsed(e.body, map[]);
      NoMetadataParsed(PrintBody(e.body));
      assert PrintBody(e.body) + map[] == PrintBody(e.body);
    case Some(m) =>
      MetadataKeys(m);
      BodyParsed(e.body, PrintMetadata(m));
      MetadataMembers(m, PrintBody(e.body));
      MetadataParsed(m, PrintBody(e.body) + PrintMetadata(m));
  }

  /** The parser of the body's own kind gives the printed event back, or the reason it does not. */
  lemma OwnParser(e: Event)
    ensures RunParser(KindOf(e.body), Payload(e)) ==
            if !EntityNamable(e.metadata) then Err(Malformed("initiating_entity"))
            else if Validate(e).Some? then Err(Validate(e).value)
            else Ok(Normalized(e).(typ := TypeOf(e.body)))
  {
    MembersParsed(e);
    NormalizedIsValidAlike(e);
    ParserEnds(KindOf(e.body), Payload(e).members, e.body, ParseMetadata(Payload(e).members));
  }

  lemma ForeignParser(kind: Kind, e: Event)
    requires kind != KindOf(e.body)
    ensures RunParser(kind, Payload(e)).Err?
  {
    match e.metadata
    case None =>
      ForeignBodyIsRejected(kind, e.body, map[]);
      assert PrintBody(e.body) + map[] == PrintBody(e.body);
    case Some(m) =>
      MetadataKeys(m);
      ForeignBodyIsRejected(kind, e.body, PrintMetadata(m));
  }

  /** A printed event parses under its own type exactly when it is sound, and comes back normalized. */
  lemma EventRoundTrip(e: Event)
    ensures Parse(e.typ, Payload(e)).Ok? <==> Sound(e)
    ensures Sound(e) ==> Parse(e.typ, Payload(e)) == Ok(Normalized(e))
  {
    OwnParser(e);
    TypesAndKinds(e.typ, e.body);
    if Parser(e.typ).Some? && Parser(e.typ).value != KindOf(e.body) {
      ForeignParser(Parser(e.typ).value, e);
    }
  }

  lemma TypesAndKinds(typ: string, b: Body)
    ensures Parser(typ) == Some(KindOf(b)) <==> typ == TypeOf(b)
  {
  }

  /** Whatever the parser accepts is sound. */
  lemma ParsedIsSound(typ: string, j: Json)
    requires Parse(typ, j).Ok?
    ensures Sound(Parse(typ, j).value) && Parse(typ, j).value.typ == typ
  {
  }

  /** So a parsed event, printed and parsed again, is itself up to empty metadata, and then for good. */
  lemma ParsedEventIsStable(typ: string, j: Json)
    requires Parse(typ, j).Ok?
    ensures var e := Parse(typ, j).value;
            && Parse(typ, Payload(e)) == Ok(Normalized(e))
            && Parse(typ, Payload(Normalized(e))) == Ok(Normalized(e))
  {
    var e := Parse(typ, j).value;
    ParsedIsSound(typ, j);
    EventRoundTrip(e);
    NormalizedIsValidAlike(e);
    EventRoundTrip(Normalized(e));
  }

  /** The three types, and that no other is known here. */
  lemma TypeNames(typ: string)
    ensures Parser("https://schemas.openid.net/secevent/caep/event-type/credential-change") == Some(CredentialKind)
    ensures Parser("https://schemas.openid.net/secevent/caep/event-type/assurance-level-change") == Some(AssuranceKind)
    ensures Parser("https://schemas.openid.net/secevent/caep/event-type/token-claims-change") == Some(ClaimsKind)
    ensures Parser(typ) == None ==> forall j :: Parse(typ, j) == Err(Unregistered(typ))
    ensures Parser(typ).Some? ==>
              typ in {"https://schemas.openid.net/secevent/caep/event-type/credential-change",
                      "https://schemas.openid.net/secevent/caep/event-type/assurance-level-change",
                      "https://schemas.openid.net/secevent/caep/event-type/token-claims-change"}
  {
    assert CREDENTIAL_CHANGE[|CREDENTIAL_CHANGE| - 6] == 'c' && ASSURANCE_CHANGE[|ASSURANCE_CHANGE| - 6] == 'c';
    assert CREDENTIAL_CHANGE != ASSURANCE_CHANGE && ASSURANCE_CHANGE != CLAIMS_CHANGE;
    assert CREDENTIAL_CHANGE != CLAIMS_CHANGE;
  }

  /** Timestamps are 64-bit integers; a number beyond them is refused, as is one with a fraction. */
  lemma TimestampsAre64Bits(i: int, r: real)
    ensures ParseTimestamp(Some(Int(i))).Ok? <==> -9_223_372_036_854_775_808 <= i <= 9_223_372_036_854_775_807
    ensures ParseTimestamp(Some(Frac(r))).Err?
  {
  }

  /** A new credential change event, as its constructor makes it. */
  function NewCredentialChange(credentialType: string, changeType: string): Event {
    Event(ASSURANCE_CHANGE, None, Credential(credentialType, changeType, None, None, None, None))
  }

  /**
   The constructor sets the type of another event: whatever metadata and optional members are added,
   what it makes is never accepted back, valid or not.
   */
  lemma NewCredentialChangeIsLost(
      credentialType: string, changeType: string, metadata: Option<Metadata>, name: Option<string>,
      issuer: Option<string>, serial: Option<string>, aaguid: Option<string>)
    ensures var e := NewCredentialChange(credentialType, changeType);
            var dressed := e.(metadata := metadata, body := e.body.(
              friendlyName := name, x509Issuer := issuer, x509Serial := serial, fido2Aaguid := aaguid));
            Parse(dressed.typ, Payload(dressed)).Err?
    ensures Validate(NewCredentialChange("password", "create")) == None
  {
    var e := NewCredentialChange(credentialType, changeType);
    EventRoundTrip(e.(metadata := metadata, body := e.body.(
      friendlyName := name, x509Issuer := issuer, x509Serial := serial, fido2Aaguid := aaguid)));
  }
}
