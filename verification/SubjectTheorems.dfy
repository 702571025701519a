/** Printing, parsing, trimming and validating subjects of any depth, taken together. */
module SubjectTheorems {
  import opened Wrappers
  import opened Json
  import opened Sequences
  import opened TrimSpace
  import opened Subject

  /** The node that a path of components leads to. */
  function NodeAt(s: Subject, path: seq<Part>): Option<Subject> {
    if path == [] then Some(s)
    else if s.Complex? && path[0] in s.parts then NodeAt(s.parts[path[0]], path[1..])
    else None
  }

  /** Formats the parser knows. */
  predicate KnownFormat(s: Subject) {
    !s.Account? && !s.Did? && !s.JwtId? && !s.SamlId?
  }

  predicate AllKnown(s: Subject) {
    KnownFormat(s) && (s.Complex? ==> forall p | p in s.parts :: AllKnown(s.parts[p]))
  }

  /** No node, on any path, has a format the parser does not know. */
  ghost predicate AllNodesKnown(s: Subject) {
    forall path | NodeAt(s, path).Some? :: KnownFormat(NodeAt(s, path).value)
  }

  lemma {:induction false} AllKnownMeans(s: Subject)
    ensures AllKnown(s) <==> AllNodesKnown(s)
  {
    assert NodeAt(s, []) == Some(s);
    if !s.Complex? {
    } else {
      forall p | p in s.parts
        ensures AllKnown(s.parts[p]) <==> AllNodesKnown(s.parts[p])
        ensures forall path :: NodeAt(s, [p] + path) == NodeAt(s.parts[p], path)
      {
        AllKnownMeans(s.parts[p]);
        forall path: seq<Part>
          ensures NodeAt(s, [p] + path) == NodeAt(s.parts[p], path)
        {
          assert ([p] + path)[1..] == path;
        }
      }
      forall path | AllKnown(s) && NodeAt(s, path).Some?
        ensures KnownFormat(NodeAt(s, path).value)
      {
        assert path == [] || path == [path[0]] + path[1..];
      }
    }
  }

  // The round trip

  /** A tree of strings is parsed by its format alone. */
  lemma ParseOfTexts(m: map<string, string>)
    requires "format" in m && m["format"] != "complex"
    ensures Parse(FromTexts(m)) == FromValues(m["format"], m)
  {
    TextsPrinted(m);
    assert TextField(FromTexts(m).members, "format") == Ok(m["format"]);
  }

  lemma SimpleRoundTrip(s: Subject)
    requires !s.Complex?
    ensures KnownFormat(s) ==> Parse(Marshal(s)) == Ok(TrimmedNode(s))
    ensures !KnownFormat(s) ==> Parse(Marshal(s)) == Err(Unsupported(FormatOf(s)))
  {
    ParseOfTexts(Values(s)["format" := FormatOf(s)]);
  }

  /** The trimmed components among the first `n` in order. */
  function Front(s: Subject, n: nat): map<Part, Subject>
    requires s.Complex? && n <= |ORDER|
  {
    map p | p in s.parts && p in ORDER[..n] :: TrimmedAll(s.parts[p])
  }

  predicate FrontKnown(s: Subject, n: nat)
    requires s.Complex? && n <= |ORDER|
  {
    forall p | p in s.parts && p in ORDER[..n] :: AllKnown(s.parts[p])
  }

  /** The tree holds the printed component, or no member, for part `p`. */
  predicate PrintsPart(s: Subject, j: Json, p: Part)
    requires s.Complex? && j.Obj?
  {
    && (Key(p) in j.members <==> p in s.parts)
    && (p in s.parts ==> j.members[Key(p)] == Marshal(s.parts[p]))
  }

  lemma MarshalledPart(s: Subject, p: Part)
    requires s.Complex?
    ensures Marshal(s).Obj? && TextField(Marshal(s).members, "format") == Ok("complex")
    ensures PrintsPart(s, Marshal(s), p)
  {
    var ms := map q | q in s.parts :: Marshal(s.parts[q]);
    assert Marshal(s) == Obj(map["format" := Str("complex")] + PartMembers(ms));
    BesideFormat(ms, p);
  }

  /** The components and the format do not get in each other's way. */
  lemma BesideFormat(ms: map<Part, Json>, p: Part)
    ensures var all := map["format" := Str("complex")] + PartMembers(ms);
            && TextField(all, "format") == Ok("complex")
            && Raw(all, Key(p)) == if p in ms then Some(ms[p]) else None
  {
    PartMembersRead(ms, p);
    KeysDiffer(p, p);
  }

  lemma FrontStep(s: Subject, n: nat)
    requires s.Complex? && 0 < n <= |ORDER|
    ensures var p := ORDER[n - 1];
            && FrontKnown(s, n) == (FrontKnown(s, n - 1) && (p in s.parts ==> AllKnown(s.parts[p])))
            && Front(s, n) ==
               if p in s.parts then Front(s, n - 1)[p := TrimmedAll(s.parts[p])] else Front(s, n - 1)
  {
    assert ORDER[..n] == ORDER[..n - 1] + [ORDER[n - 1]];
  }

  /** The first `n` components are parsed when all are known, and then are those of `Front`. */
  predicate FrontParsed(s: Subject, j: Json, n: nat)
    requires s.Complex? && n <= |ORDER| && j.Obj?
  {
    && (ParseParts(j, n).Ok? <==> FrontKnown(s, n))
    && (FrontKnown(s, n) ==> ParseParts(j, n) == Ok(Front(s, n)))
  }

  lemma FrontParsedStep(s: Subject, j: Json, n: nat)
    requires s.Complex? && 0 < n <= |ORDER| && j.Obj? && FrontParsed(s, j, n - 1) && PrintsPart(s, j, ORDER[n - 1])
    requires ORDER[n - 1] in s.parts ==>
               var c := s.parts[ORDER[n - 1]];
               && (Parse(Marshal(c)).Ok? <==> AllKnown(c))
               && (AllKnown(c) ==> Parse(Marshal(c)) == Ok(TrimmedAll(c)))
    ensures FrontParsed(s, j, n)
  {
    FrontStep(s, n);
  }

  lemma {:induction false} PartsRoundTrip(s: Subject, j: Json, n: nat)
    requires s.Complex? && n <= |ORDER| && j.Obj?
    requires forall p {:trigger PrintsPart(s, j, p)} :: PrintsPart(s, j, p)
    ensures FrontParsed(s, j, n)
    decreases s, n
  {
    if n == 0 {
    } else {
      PartsRoundTrip(s, j, n - 1);
      assert PrintsPart(s, j, ORDER[n - 1]);
      if ORDER[n - 1] in s.parts {
        RoundTrip(s.parts[ORDER[n - 1]]);
      }
      FrontParsedStep(s, j, n);
    }
  }

  lemma WholeFront(s: Subject)
    requires s.Complex?
    ensures Front(s, |ORDER|) == TrimmedAll(s).parts
    ensures FrontKnown(s, |ORDER|) == AllKnown(s)
  {
    assert ORDER[..|ORDER|] == ORDER;
    forall p: Part
      ensures p in ORDER
    {
      OrderIsComplete(p);
    }
  }

  lemma ComplexIsParsedByParts(j: Json)
    requires j.Obj? && TextField(j.members, "format") == Ok("complex")
    ensures Parse(j).Ok? <==> ParseParts(j, |ORDER|).Ok?
    ensures Parse(j).Ok? ==> Parse(j).value == Complex(ParseParts(j, |ORDER|).value)
  {
  }

  /** A printed subject parses exactly when every node has a format the parser knows, and then comes back trimmed. */
  lemma {:induction false} RoundTrip(s: Subject)
    ensures Parse(Marshal(s)).Ok? <==> AllKnown(s)
    ensures AllKnown(s) ==> Parse(Marshal(s)) == Ok(TrimmedAll(s))
    decreases s, |ORDER| + 1
  {
    if s.Complex? {
      var j := Marshal(s);
      forall p: Part
        ensures j.Obj? && TextField(j.members, "format") == Ok("complex") && PrintsPart(s, j, p)
      {
        MarshalledPart(s, p);
      }
      assert PrintsPart(s, j, User);
      PartsRoundTrip(s, j, |ORDER|);
      ComplexIsParsedByParts(j);
      WholeFront(s);
    } else {
      SimpleRoundTrip(s);
    }
  }

  lemma CheckTrimmed(x: Syntax, s: Subject)
    requires !s.Complex?
    ensures CheckNode(x, TrimmedNode(s)) == CheckNode(x, s)
  {
    match s
    case Email(a) => TrimTwice(a);
    case Phone(a) => TrimTwice(a);
    case IssuerSub(a, b) => TrimTwice(a); TrimTwice(b);
    case Uri(a) => TrimTwice(a);
    case Opaque(a) => TrimTwice(a);
    case Account(a) => TrimTwice(a);
    case Did(a) => TrimTwice(a);
    case JwtId(a, b) => TrimTwice(a); TrimTwice(b);
    case SamlId(a, b) => TrimTwice(a); TrimTwice(b);
  }

  /** What a constructor returns it accepts as it is, so it counts as built. */
  lemma MadeIsBuilt(x: Syntax, raw: Subject)
    requires !raw.Complex? && Make(x, raw).Some?
    ensures Built(x, Make(x, raw).value)
  {
    CheckTrimmed(x, raw);
    TrimmedNodeTwice(raw);
  }

  lemma TrimmedNodeTwice(s: Subject)
    ensures TrimmedNode(TrimmedNode(s)) == TrimmedNode(s)
  {
    match s
    case Email(a) => TrimTwice(a);
    case Phone(a) => TrimTwice(a);
    case IssuerSub(a, b) => TrimTwice(a); TrimTwice(b);
    case Uri(a) => TrimTwice(a);
    case Opaque(a) => TrimTwice(a);
    case Account(a) => TrimTwice(a);
    case Did(a) => TrimTwice(a);
    case JwtId(a, b) => TrimTwice(a); TrimTwice(b);
    case SamlId(a, b) => TrimTwice(a); TrimTwice(b);
    case Complex(_) =>
  }

  lemma {:induction false} BuiltIsTrimmed(x: Syntax, s: Subject)
    requires Built(x, s)
    ensures TrimmedAll(s) == s
  {
    if !s.Complex? {
    } else {
      forall p | p in s.parts
        ensures TrimmedAll(s.parts[p]) == s.parts[p]
      {
        BuiltIsTrimmed(x, s.parts[p]);
      }
      assert TrimmedAll(s).parts == s.parts;
    }
  }

  /** A subject built by the constructors comes back exactly, unless some node has an unknown format. */
  lemma BuiltRoundTrip(x: Syntax, s: Subject)
    requires Built(x, s)
    ensures Parse(Marshal(s)) == Ok(s) <==> AllNodesKnown(s)
    ensures Parse(Marshal(s)).Ok? ==> Parse(Marshal(s)) == Ok(s)
  {
    RoundTrip(s);
    AllKnownMeans(s);
    BuiltIsTrimmed(x, s);
  }

  /** A valid account, built by its constructor, is printed but not parsed, alone or as a component. */
  lemma AccountsDoNotComeBack(x: Syntax)
    requires x.url("acct:user@example.com")
    ensures var account := Account("acct:user@example.com");
            && Built(x, account) && Validate(x, account) == None
            && Parse(Marshal(account)) == Err(Unsupported("account"))
            && Parse(Marshal(Complex(map[User := account]))).Err?
  {
    var account := Account("acct:user@example.com");
    TrimOfTrimmed("acct:user@example.com");
    SimpleRoundTrip(account);
    RoundTrip(Complex(map[User := account]));
    assert !AllKnown(Complex(map[User := account])) by {
      assert map[User := account][User] == account;
    }
  }

  /** The names of the components, in order. */
  lemma ComponentNames()
    ensures seq(|ORDER|, i requires 0 <= i < |ORDER| => Key(ORDER[i])) ==
            ["user", "device", "session", "application", "tenant", "org_unit", "group"]
  {
  }

  /** What is left out of a simple subject is read as empty. */
  lemma MissingMembersAreEmpty(format: string)
    ensures format in ["email", "phone_number", "iss_sub", "uri", "opaque"] ==>
              Parse(Obj(map["format" := Str(format)])) ==
              Ok(match format
                 case "email" => Email("")
                 case "phone_number" => Phone("")
                 case "iss_sub" => IssuerSub("", "")
                 case "uri" => Uri("")
                 case _ => Opaque(""))
  {
    var m := map["format" := format];
    assert FromTexts(m).members == map["format" := Str(format)];
    if format != "complex" {
      ParseOfTexts(m);
    }
  }

  // Parsed subjects

  /** What parsing leaves: known formats and trimmed values throughout. */
  predicate Settled(s: Subject) {
    AllKnown(s) && TrimmedAll(s) == s
  }

  lemma ParsedSimpleIsSettled(format: string, m: map<string, string>)
    requires FromValues(format, m).Ok?
    ensures Settled(FromValues(format, m).value)
  {
    ValueIsTrimmed(m, "email");
    ValueIsTrimmed(m, "phone");
    ValueIsTrimmed(m, "issuer");
    ValueIsTrimmed(m, "sub");
    ValueIsTrimmed(m, "uri");
    ValueIsTrimmed(m, "id");
  }

  lemma ValueIsTrimmed(m: map<string, string>, key: string)
    ensures Trim(Value(m, key)) == Value(m, key)
  {
    if key in m {
      TrimTwice(m[key]);
    }
  }

  lemma {:induction false} ParsedPartsAreSettled(j: Json, n: nat)
    requires j.Obj? && n <= |ORDER| && ParseParts(j, n).Ok?
    ensures var parts := ParseParts(j, n).value;
            forall p | p in parts :: Settled(parts[p])
    decreases j, n
  {
    if n == 0 {
    } else {
      ParsedPartsAreSettled(j, n - 1);
      var p := ORDER[n - 1];
      if Key(p) in j.members {
        ParsedIsSettled(j.members[Key(p)]);
      }
    }
  }

  lemma {:induction false} ParsedIsSettled(j: Json)
    requires Parse(j).Ok?
    ensures Settled(Parse(j).value)
    decreases j, |ORDER| + 1
  {
    var s := Parse(j).value;
    if s.Complex? {
      ParsedPartsAreSettled(j, |ORDER|);
      assert TrimmedAll(s).parts == s.parts;
    } else {
      var m := Texts(j).value;
      ParsedSimpleIsSettled(if "format" in m then m["format"] else "", m);
    }
  }

  /** Whatever was parsed from any tree, its printed form parses back to it. */
  lemma ParsedRoundTrip(j: Json)
    requires Parse(j).Ok?
    ensures Parse(Marshal(Parse(j).value)) == Parse(j)
  {
    ParsedIsSettled(j);
    RoundTrip(Parse(j).value);
  }

  // Validation

  lemma {:induction false} PartsValidateTrimmed(x: Syntax, s: Subject, n: nat)
    requires s.Complex? && n <= |ORDER|
    ensures ValidateParts(x, TrimmedAll(s), n) == ValidateParts(x, s, n)
    decreases s, n
  {
    if n == 0 {
    } else {
      PartsValidateTrimmed(x, s, n - 1);
      if ORDER[n - 1] in s.parts {
        ValidateTrimmed(x, s.parts[ORDER[n - 1]]);
      }
    }
  }

  /** White space around values makes no difference to the verdict or to the error reported. */
  lemma {:induction false} ValidateTrimmed(x: Syntax, s: Subject)
    ensures Validate(x, TrimmedAll(s)) == Validate(x, s)
    decreases s, |ORDER| + 1
  {
    if s.Complex? {
      PartsValidateTrimmed(x, s, |ORDER|);
      assert TrimmedAll(s).parts.Keys == s.parts.Keys;
      assert s.parts == map[] <==> s.parts.Keys == {};
    } else {
      CheckTrimmed(x, s);
    }
  }

  /** Print and parse keep the verdict of validation. */
  lemma RoundTripKeepsVerdict(x: Syntax, s: Subject)
    requires Parse(Marshal(s)).Ok?
    ensures Validate(x, Parse(Marshal(s)).value) == Validate(x, s)
  {
    RoundTrip(s);
    ValidateTrimmed(x, s);
  }

  lemma {:induction false} PartsValid(x: Syntax, s: Subject, n: nat)
    requires s.Complex? && n <= |ORDER|
    ensures ValidateParts(x, s, n) == None <==>
            forall p | p in s.parts && p in ORDER[..n] :: Validate(x, s.parts[p]) == None
  {
    if n == 0 {
    } else {
      PartsValid(x, s, n - 1);
      assert ORDER[..n] == ORDER[..n - 1] + [ORDER[n - 1]];
    }
  }

  /** What can be wrong with a subject by itself, in the order in which it is reported. */
  function NodeFaults(x: Syntax, s: Subject): seq<Fault<SubjectError>> {
    match s
    case Email(email) => [(!x.email(Trim(email)), SubjectError(InvalidValue, "email"))]
    case Phone(phone) => [(Blank(phone), SubjectError(MissingValue, "phone"))]
    case IssuerSub(issuer, sub) =>
      [(Blank(issuer), SubjectError(MissingValue, "issuer")), (Blank(sub), SubjectError(MissingValue, "sub"))]
    case Uri(uri) => [(!x.url(Trim(uri)), SubjectError(InvalidValue, "uri"))]
    case Opaque(id) => [(Blank(id), SubjectError(MissingValue, "id"))]
    case Account(uri) =>
      [(!("acct:" <= Trim(uri)), SubjectError(InvalidValue, "uri")),
       (!x.url(Trim(uri)), SubjectError(InvalidValue, "uri"))]
    case Did(url) =>
      [(Blank(url), SubjectError(MissingValue, "url")), (!("did:" <= Trim(url)), SubjectError(InvalidValue, "url"))]
    case JwtId(iss, jti) =>
      [(Blank(iss), SubjectError(MissingValue, "iss")), (Blank(jti), SubjectError(MissingValue, "jti"))]
    case SamlId(issuer, id) =>
      [(Blank(issuer), SubjectError(MissingValue, "issuer")), (Blank(id), SubjectError(MissingValue, "assertion_id"))]
    case Complex(parts) => [(parts == map[], SubjectError(MissingComponent, ""))]
  }

  lemma NodeFaultsFound(x: Syntax, s: Subject)
    ensures CheckNode(x, s) == First(NodeFaults(x, s))
  {
    BlanksAreEmpty(s);
    var f := NodeFaults(x, s);
    FirstIsNone(f);
    var k := if f[0].0 || |f| == 1 then 0 else 1;
    if f[k].0 {
      FirstIs(f, k);
    }
  }

  lemma BlanksAreEmpty(s: Subject)
    ensures match s
            case Phone(a) => Trim(a) == "" <==> Blank(a)
            case Opaque(a) => Trim(a) == "" <==> Blank(a)
            case Did(a) => Trim(a) == "" <==> Blank(a)
            case IssuerSub(a, b) => (Trim(a) == "" <==> Blank(a)) && (Trim(b) == "" <==> Blank(b))
            case JwtId(a, b) => (Trim(a) == "" <==> Blank(a)) && (Trim(b) == "" <==> Blank(b))
            case SamlId(a, b) => (Trim(a) == "" <==> Blank(a)) && (Trim(b) == "" <==> Blank(b))
            case _ => true
  {
    match s
    case Phone(a) => TrimOfBlank(a);
    case Opaque(a) => TrimOfBlank(a);
    case Did(a) => TrimOfBlank(a);
    case IssuerSub(a, b) => TrimOfBlank(a); TrimOfBlank(b);
    case JwtId(a, b) => TrimOfBlank(a); TrimOfBlank(b);
    case SamlId(a, b) => TrimOfBlank(a); TrimOfBlank(b);
    case _ =>
  }

  /** What can be wrong with the components, each reported under its name, in the documented order. */
  function ComponentFaults(x: Syntax, s: Subject): seq<Fault<SubjectError>>
    requires s.Complex?
  {
    seq(|ORDER|, i requires 0 <= i < |ORDER| =>
      (ORDER[i] in s.parts && Validate(x, s.parts[ORDER[i]]).Some?, SubjectError(InvalidValue, Key(ORDER[i]))))
  }

  lemma {:induction false} ComponentFaultsFound(x: Syntax, s: Subject, n: nat)
    requires s.Complex? && n <= |ORDER|
    ensures ValidateParts(x, s, n) == First(ComponentFaults(x, s)[..n])
  {
    var f := ComponentFaults(x, s);
    if n == 0 {
    } else {
      ComponentFaultsFound(x, s, n - 1);
      assert f[..n] == f[..n - 1] + [f[n - 1]];
      FirstOfTwo(f[..n - 1], [f[n - 1]]);
    }
  }

  /** Validation reports the first of these faults, and a constructor refuses for the same. */
  lemma ValidateReportsFirst(x: Syntax, s: Subject)
    ensures Validate(x, s) == First(NodeFaults(x, s) + if s.Complex? then ComponentFaults(x, s) else [])
    ensures !s.Complex? ==> (Make(x, s).Some? <==> First(NodeFaults(x, s)) == None)
  {
    NodeFaultsFound(x, s);
    if s.Complex? {
      var f := ComponentFaults(x, s);
      ComponentFaultsFound(x, s, |ORDER|);
      assert f[..|ORDER|] == f;
      FirstOfTwo(NodeFaults(x, s), f);
    } else {
      assert NodeFaults(x, s) + [] == NodeFaults(x, s);
      NodeFaultsFound(x, TrimmedNode(s));
      CheckTrimmed(x, s);
    }
  }

  /** Every node passes its own checks. */
  ghost predicate AllNodesPass(x: Syntax, s: Subject) {
    forall path | NodeAt(s, path).Some? :: CheckNode(x, NodeAt(s, path).value) == None
  }

  /** A subject is valid exactly when every node of it is. */
  lemma {:induction false} ValidMeansEveryNode(x: Syntax, s: Subject)
    ensures Validate(x, s) == None <==> AllNodesPass(x, s)
  {
    assert NodeAt(s, []) == Some(s);
    if !s.Complex? {
    } else {
      PartsValid(x, s, |ORDER|);
      assert ORDER[..|ORDER|] == ORDER;
      forall p | p in s.parts
        ensures p in ORDER
        ensures Validate(x, s.parts[p]) == None <==> AllNodesPass(x, s.parts[p])
        ensures forall path :: NodeAt(s, [p] + path) == NodeAt(s.parts[p], path)
      {
        OrderIsComplete(p);
        ValidMeansEveryNode(x, s.parts[p]);
        forall path: seq<Part>
          ensures NodeAt(s, [p] + path) == NodeAt(s.parts[p], path)
        {
          assert ([p] + path)[1..] == path;
        }
      }
      forall path | Validate(x, s) == None && NodeAt(s, path).Some?
        ensures CheckNode(x, NodeAt(s, path).value) == None
      {
        assert path == [] || path == [path[0]] + path[1..];
      }
    }
  }
}
