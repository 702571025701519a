/** Complex subjects as the objects they are in the source: set component by component, and parsed in place. */
module ComplexSubject {
  import opened Wrappers
  import opened Json
  import opened Subject

  /** What parsing the first `n` components in place makes of those there were, and how it fails. */
  function Overlay(prior: map<Part, Subject>, j: Json, n: nat): (map<Part, Subject>, Option<ParseError>)
    requires j.Obj? && n <= |ORDER|
  {
    if n == 0 then (prior, None)
    else
      var (parts, error) := Overlay(prior, j, n - 1);
      var p := ORDER[n - 1];
      if error.Some? || Key(p) !in j.members then (parts, error)
      else match Parse(j.members[Key(p)])
        case Err(e) => (parts, Some(InComponent(p, e)))
        case Ok(s) => (parts[p := s], None)
  }

  class ComplexSubjectImpl {
    var format: string
    var parts: map<Part, Subject>

    constructor ()
      ensures format == "complex" && parts == map[]
    {
      format, parts := "complex", map[];
    }

    /** A nil component is ignored. */
    method With(p: Part, s: Option<Subject>)
      modifies this
      ensures format == old(format)
      ensures parts == if s.Some? then old(parts)[p := s.value] else old(parts)
    {
      if s.Some? {
        parts := parts[p := s.value];
      }
    }

    /** One component read in place, unless an earlier one has failed. */
    method ReadPart(j: Json, n: nat, earlier: Option<ParseError>, ghost prior: map<Part, Subject>)
      returns (error: Option<ParseError>)
      requires j.Obj? && n < |ORDER| && Overlay(prior, j, n) == (parts, earlier)
      modifies this`parts
      ensures Overlay(prior, j, n + 1) == (parts, error)
    {
      var p := ORDER[n];
      error := earlier;
      if error == None && Key(p) in j.members {
        match Parse(j.members[Key(p)])
        case Err(e) => error := Some(InComponent(p, e));
        case Ok(s) => parts := parts[p := s];
      }
    }

    /** Components that the tree does not have stay as they were. Null reads as an object without a format. */
    method UnmarshalJSON(j: Json) returns (error: Option<ParseError>)
      modifies this
      ensures !j.Obj? || TextField(j.members, "format") != Ok("complex") ==>
                && format == old(format) && parts == old(parts)
                && error == Some(
                     if j == Null then Unsupported("")
                     else if !j.Obj? then BadJson("")
                     else match TextField(j.members, "format") case Err(e) => BadJson(e) case Ok(f) => Unsupported(f))
      ensures j.Obj? && TextField(j.members, "format") == Ok("complex") ==>
                (parts, error) == Overlay(old(parts), j, |ORDER|) && format == "complex"
    {
      if !j.Obj? {
        return Some(if j == Null then Unsupported("") else BadJson(""));
      }
      match TextField(j.members, "format") {
        case Err(e) => return Some(BadJson(e));
        case Ok(f) => if f != "complex" { return Some(Unsupported(f)); }
      }
      format := "complex";
      error := ReadPart(j, 0, None, parts);
      error := ReadPart(j, 1, error, old(parts));
      error := ReadPart(j, 2, error, old(parts));
      error := ReadPart(j, 3, error, old(parts));
      error := ReadPart(j, 4, error, old(parts));
      error := ReadPart(j, 5, error, old(parts));
      error := ReadPart(j, 6, error, old(parts));
    }
  }

  /**
     Parsing in place fails exactly when parsing does, and otherwise lays the parsed components over the old
     ones; into a new object that is parsing.
   */
  lemma {:induction false} OverlayIsParse(prior: map<Part, Subject>, j: Json, n: nat)
    requires j.Obj? && n <= |ORDER|
    ensures Overlay(prior, j, n).1 == None <==> ParseParts(j, n).Ok?
    ensures ParseParts(j, n).Ok? ==> Overlay(prior, j, n).0 == prior + ParseParts(j, n).value
    ensures ParseParts(j, n).Err? ==> Overlay(prior, j, n).1 == Some(ParseParts(j, n).error)
  {
    if n == 0 {
      assert prior + map[] == prior;
    } else {
      OverlayIsParse(prior, j, n - 1);
    }
  }

  /** Parsing into a used object gives what parsing gives if and only if it held no component the tree lacks. */
  lemma ReuseIsSafe(prior: map<Part, Subject>, j: Json)
    requires j.Obj? && ParseParts(j, |ORDER|).Ok?
    ensures Overlay(prior, j, |ORDER|).0 == ParseParts(j, |ORDER|).value <==>
            forall p | p in prior :: Key(p) in j.members
  {
    OverlayIsParse(prior, j, |ORDER|);
    ParsedParts(j, |ORDER|);
    assert ORDER[..|ORDER|] == ORDER;
    forall p: Part
      ensures p in ORDER
    {
      OrderIsComplete(p);
    }
    var parsed := ParseParts(j, |ORDER|).value;
    assert (prior + parsed).Keys == prior.Keys + parsed.Keys;
    if forall p | p in prior :: Key(p) in j.members {
      assert prior + parsed == parsed;
    }
  }

  /** A tree without components, parsed into an object that held a user, leaves the user there. */
  lemma OldUserSurvives()
    ensures var prior, j := map[User := Opaque("old")], Obj(map["format" := Str("complex")]);
            && ParseParts(j, |ORDER|) == Ok(map[]) && Overlay(prior, j, |ORDER|) == (prior, None)
  {
    var prior, j := map[User := Opaque("old")], Obj(map["format" := Str("complex")]);
    NothingToParse(j, |ORDER|);
    OverlayIsParse(prior, j, |ORDER|);
    assert prior + map[] == prior;
  }

  lemma {:induction false} NothingToParse(j: Json, n: nat)
    requires j.Obj? && n <= |ORDER| && forall p: Part :: Key(p) !in j.members
    ensures ParseParts(j, n) == Ok(map[])
  {
    if n == 0 {
    } else {
      NothingToParse(j, n - 1);
    }
  }

  lemma {:induction false} ParsedParts(j: Json, n: nat)
    requires j.Obj? && n <= |ORDER| && ParseParts(j, n).Ok?
    ensures forall p :: p in ParseParts(j, n).value <==> p in ORDER[..n] && Key(p) in j.members
  {
    if n == 0 {
    } else {
      ParsedParts(j, n - 1);
      assert ORDER[..n] == ORDER[..n - 1] + [ORDER[n - 1]];
    }
  }
}
