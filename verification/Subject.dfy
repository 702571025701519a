/** Subject identifiers: construction, two printers, a recursive parser and a recursive validator. */
module Subject {
  import opened Wrappers
  import opened Json
  import opened TrimSpace

  datatype Part = User | Device | Session | Application | Tenant | OrgUnit | Group

  /** A complex subject holds a subject for each of some parts. */
  datatype Subject =
    | Email(email: string)
    | Phone(phone: string)
    | IssuerSub(issuer: string, sub: string)
    | Uri(uri: string)
    | Opaque(id: string)
    | Account(uri: string)
    | Did(url: string)
    | JwtId(iss: string, jti: string)
    | SamlId(issuer: string, assertionId: string)
    | Complex(parts: map<Part, Subject>)

  /** The order in which components are parsed and validated. */
  const ORDER: seq<Part> := [User, Device, Session, Application, Tenant, OrgUnit, Group]

  function Key(p: Part): string {
    match p
    case User => "user"
    case Device => "device"
    case Session => "session"
    case Application => "application"
    case Tenant => "tenant"
    case OrgUnit => "org_unit"
    case Group => "group"
  }

  lemma KeysDiffer(p: Part, q: Part)
    ensures Key(p) == Key(q) ==> p == q
    ensures Key(p) != "format"
  {
  }

  lemma OrderIsComplete(p: Part)
    ensures p in ORDER
    ensures forall i, j | 0 <= i < j < |ORDER| :: ORDER[i] != ORDER[j]
  {
    assert ORDER[0] == User && ORDER[1] == Device && ORDER[2] == Session && ORDER[3] == Application;
    assert ORDER[4] == Tenant && ORDER[5] == OrgUnit && ORDER[6] == Group;
  }

  // Validation

  /** Whether an address or a URL parses. */
  datatype Syntax = Syntax(email: string -> bool, url: string -> bool)

  datatype Code = MissingValue | InvalidValue | MissingComponent

  datatype SubjectError = SubjectError(code: Code, field: string)

  function Required(value: string, field: string): Option<SubjectError> {
    if value == "" then Some(SubjectError(MissingValue, field)) else None
  }

  function Check(ok: bool, field: string): Option<SubjectError> {
    if ok then None else Some(SubjectError(InvalidValue, field))
  }

  /** The first of two checks to fail. */
  function Either(a: Option<SubjectError>, b: Option<SubjectError>): Option<SubjectError> {
    if a.Some? then a else b
  }

  predicate HasPrefix(s: string, prefix: string) {
    prefix <= s
  }

  /** The checks of one subject, without its components. */
  function CheckNode(x: Syntax, s: Subject): Option<SubjectError> {
    match s
    case Email(email) => Check(x.email(Trim(email)), "email")
    case Phone(phone) => Required(Trim(phone), "phone")
    case IssuerSub(issuer, sub) => Either(Required(Trim(issuer), "issuer"), Required(Trim(sub), "sub"))
    case Uri(uri) => Check(x.url(Trim(uri)), "uri")
    case Opaque(id) => Required(Trim(id), "id")
    case Account(uri) => Check(HasPrefix(Trim(uri), "acct:") && x.url(Trim(uri)), "uri")
    case Did(url) => Either(Required(Trim(url), "url"), Check(HasPrefix(Trim(url), "did:"), "url"))
    case JwtId(iss, jti) => Either(Required(Trim(iss), "iss"), Required(Trim(jti), "jti"))
    case SamlId(issuer, id) => Either(Required(Trim(issuer), "issuer"), Required(Trim(id), "assertion_id"))
    case Complex(parts) => if parts == map[] then Some(SubjectError(MissingComponent, "")) else None
  }

  function Validate(x: Syntax, s: Subject): Option<SubjectError>
    decreases s, |ORDER| + 1
  {
    match s
    case Complex(parts) =>
      if parts == map[] then Some(SubjectError(MissingComponent, "")) else ValidateParts(x, s, |ORDER|)
    case _ => CheckNode(x, s)
  }

  /** The first failure among the first `n` components in order, reported under the component's name. */
  function ValidateParts(x: Syntax, s: Subject, n: nat): Option<SubjectError>
    requires s.Complex? && n <= |ORDER|
    decreases s, n
  {
    if n == 0 then None
    else
      var p := ORDER[n - 1];
      Either(ValidateParts(x, s, n - 1),
             if p in s.parts then Check(Validate(x, s.parts[p]).None?, Key(p)) else None)
  }

  // Construction

  /** What the constructors make of their arguments. */
  function Make(x: Syntax, raw: Subject): Option<Subject> {
    var s := TrimmedNode(raw);
    match raw
    case Complex(_) => Some(s)
    case _ => if CheckNode(x, s) == None then Some(s) else None
  }

  function TrimmedNode(s: Subject): Subject {
    match s
    case Email(email) => Email(Trim(email))
    case Phone(phone) => Phone(Trim(phone))
    case IssuerSub(issuer, sub) => IssuerSub(Trim(issuer), Trim(sub))
    case Uri(uri) => Uri(Trim(uri))
    case Opaque(id) => Opaque(Trim(id))
    case Account(uri) => Account(Trim(uri))
    case Did(url) => Did(Trim(url))
    case JwtId(iss, jti) => JwtId(Trim(iss), Trim(jti))
    case SamlId(issuer, id) => SamlId(Trim(issuer), Trim(id))
    case Complex(_) => s
  }

  /** Every value of the tree trimmed. */
  function TrimmedAll(s: Subject): Subject {
    match s
    case Complex(parts) => Complex(map p | p in parts :: TrimmedAll(parts[p]))
    case _ => TrimmedNode(s)
  }

  /** Built by the constructors, at every node. */
  predicate Built(x: Syntax, s: Subject) {
    match s
    case Complex(parts) => forall p | p in parts :: Built(x, parts[p])
    case _ => Make(x, s) == Some(s)
  }

  // Printing

  /** The members of a simple subject besides its format. */
  function Values(s: Subject): map<string, string>
    requires !s.Complex?
  {
    match s
    case Email(email) => map["email" := email]
    case Phone(phone) => map["phone" := phone]
    case IssuerSub(issuer, sub) => map["issuer" := issuer, "sub" := sub]
    case Uri(uri) => map["uri" := uri]
    case Opaque(id) => map["id" := id]
    case Account(uri) => map["uri" := uri]
    case Did(url) => map["url" := url]
    case JwtId(iss, jti) => map["iss" := iss, "jti" := jti]
    case SamlId(issuer, id) => map["issuer" := issuer, "assertion_id" := id]
  }

  function FormatOf(s: Subject): string {
    match s
    case Email(_) => "email"
    case Phone(_) => "phone_number"
    case IssuerSub(_, _) => "iss_sub"
    case Uri(_) => "uri"
    case Opaque(_) => "opaque"
    case Account(_) => "account"
    case Did(_) => "did"
    case JwtId(_, _) => "jwt_id"
    case SamlId(_, _) => "saml_assertion_id"
    case Complex(_) => "complex"
  }

  function Marshal(s: Subject): Json {
    match s
    case Complex(parts) =>
      Obj(map["format" := Str("complex")] + PartMembers(map p | p in parts :: Marshal(parts[p])))
    case _ => FromTexts(Values(s)["format" := FormatOf(s)])
  }

  /** Components under their names. */
  function PartMembers(ms: map<Part, Json>): map<string, Json> {
    map p | p in ms :: Key(p) := ms[p]
  }

  lemma PartMembersRead(ms: map<Part, Json>, p: Part)
    ensures Raw(PartMembers(ms), Key(p)) == if p in ms then Some(ms[p]) else None
    ensures "format" !in PartMembers(ms)
  {
  }

  /** The other printer, written member by member. */
  function Payload(s: Subject): map<string, Json> {
    match s
    case Email(email) => map["format" := Str("email"), "email" := Str(email)]
    case Phone(phone) => map["format" := Str("phone_number"), "phone" := Str(phone)]
    case IssuerSub(issuer, sub) => map["format" := Str("iss_sub"), "issuer" := Str(issuer), "sub" := Str(sub)]
    case Uri(uri) => map["format" := Str("uri"), "uri" := Str(uri)]
    case Opaque(id) => map["format" := Str("opaque"), "id" := Str(id)]
    case Account(uri) => map["format" := Str("account"), "uri" := Str(uri)]
    case Did(url) => map["format" := Str("did"), "url" := Str(url)]
    case JwtId(iss, jti) => map["format" := Str("jwt_id"), "iss" := Str(iss), "jti" := Str(jti)]
    case SamlId(issuer, id) =>
      map["format" := Str("saml_assertion_id"), "issuer" := Str(issuer), "assertion_id" := Str(id)]
    case Complex(parts) => PartMembers(map p | p in parts :: Obj(Payload(parts[p])))["format" := Str("complex")]
  }

  lemma PrintOne(format: string, k: string, v: string)
    requires k != "format"
    ensures FromTexts(map[k := v]["format" := format]) == Obj(map["format" := Str(format), k := Str(v)])
  {
    assert FromTexts(map[k := v]["format" := format]).members == map["format" := Str(format), k := Str(v)];
  }

  lemma PrintTwo(format: string, k: string, v: string, l: string, w: string)
    requires k != "format" && l != "format" && k != l
    ensures FromTexts(map[k := v, l := w]["format" := format]) ==
            Obj(map["format" := Str(format), k := Str(v), l := Str(w)])
  {
    assert FromTexts(map[k := v, l := w]["format" := format]).members ==
           map["format" := Str(format), k := Str(v), l := Str(w)];
  }

  lemma SimplePrintersAgree(s: Subject)
    requires !s.Complex?
    ensures Obj(Payload(s)) == Marshal(s)
  {
    match s
    case Email(email) => PrintOne("email", "email", email);
    case Phone(phone) => PrintOne("phone_number", "phone", phone);
    case IssuerSub(issuer, sub) => PrintTwo("iss_sub", "issuer", issuer, "sub", sub);
    case Uri(uri) => PrintOne("uri", "uri", uri);
    case Opaque(id) => PrintOne("opaque", "id", id);
    case Account(uri) => PrintOne("account", "uri", uri);
    case Did(url) => PrintOne("did", "url", url);
    case JwtId(iss, jti) => PrintTwo("jwt_id", "iss", iss, "jti", jti);
    case SamlId(issuer, id) => PrintTwo("saml_assertion_id", "issuer", issuer, "assertion_id", id);
  }

  /** The two printers produce the same tree, at any depth. */
  lemma {:induction false} PrintersAgree(s: Subject)
    ensures Obj(Payload(s)) == Marshal(s)
  {
    if s.Complex? {
      forall p | p in s.parts
        ensures Obj(Payload(s.parts[p])) == Marshal(s.parts[p])
      {
        PrintersAgree(s.parts[p]);
      }
      assert (map p | p in s.parts :: Obj(Payload(s.parts[p]))) == (map p | p in s.parts :: Marshal(s.parts[p]));
      FormatFirst(map p | p in s.parts :: Marshal(s.parts[p]));
    } else {
      SimplePrintersAgree(s);
    }
  }

  lemma FormatFirst(ms: map<Part, Json>)
    ensures PartMembers(ms)["format" := Str("complex")] == map["format" := Str("complex")] + PartMembers(ms)
  {
    PartMembersRead(ms, User);
  }

  // Parsing

  datatype ParseError =
    | BadJson(member: string)
    | Unsupported(format: string)
    | InComponent(part: Part, cause: ParseError)

  /** The simple subject of a format, out of string members. */
  function FromValues(format: string, m: map<string, string>): Result<Subject, ParseError> {
    if format == "email" then Ok(Email(Value(m, "email")))
    else if format == "phone_number" then Ok(Phone(Value(m, "phone")))
    else if format == "iss_sub" then Ok(IssuerSub(Value(m, "issuer"), Value(m, "sub")))
    else if format == "uri" then Ok(Uri(Value(m, "uri")))
    else if format == "opaque" then Ok(Opaque(Value(m, "id")))
    else Err(Unsupported(format))
  }

  function Value(m: map<string, string>, key: string): string {
    if key in m then Trim(m[key]) else ""
  }

  function ParseSimple(j: Json): Result<Subject, ParseError>
    requires j.Obj?
  {
    match Texts(j)
    case Err(e) => Err(BadJson(e))
    case Ok(m) => FromValues(if "format" in m then m["format"] else "", m)
  }

  /** The format decides; a component may have any format in turn. */
  function Parse(j: Json): Result<Subject, ParseError>
    decreases j, |ORDER| + 1
  {
    match j
    case Null => Err(Unsupported(""))
    case Obj(members) => (
      match TextField(members, "format")
      case Err(e) => Err(BadJson(e))
      case Ok(format) =>
        if format == "complex" then
          match ParseParts(j, |ORDER|)
          case Ok(parts) => Ok(Complex(parts))
          case Err(e) => Err(e)
        else if format in {"email", "phone_number", "iss_sub", "uri", "opaque"} then ParseSimple(j)
        else Err(Unsupported(format)))
    case _ => Err(BadJson(""))
  }

  /** The first `n` components in order; the first that fails ends the parse. */
  function ParseParts(j: Json, n: nat): Result<map<Part, Subject>, ParseError>
    requires j.Obj? && n <= |ORDER|
    decreases j, n
  {
    if n == 0 then Ok(map[])
    else
      match ParseParts(j, n - 1)
      case Err(e) => Err(e)
      case Ok(parts) =>
        var p := ORDER[n - 1];
        if Key(p) !in j.members then Ok(parts)
        else match Parse(j.members[Key(p)])
          case Err(e) => Err(InComponent(p, e))
          case Ok(s) => Ok(parts[p := s])
  }
}
