/** Person specifiers (sourcegraph/people.go): a person named by email, login or
    numeric user ID, written into one path component and read back, and the
    GitHub-user route variables. */
module People {
  import opened Wrappers
  import opened Strings
  import opened Strconv

  /** The sigil that marks a numeric user ID in a path component. */
  const UIDSigil := "$"

  /** A person; the encoder prefers the email, then the login, then the user ID. */
  datatype PersonSpec = PersonSpec(email: string, login: string, uid: int) {

    /** The path component: the email, else the login, else "$" and the user ID in
        decimal; a spec with none of the three panics. */
    function PathComponent(): (r: Result<string>)
      ensures r.Ok? <==> email != "" || login != "" || uid > 0
      ensures email != "" ==> r == Ok(email)
      ensures email == "" && login != "" ==> r == Ok(login)
      ensures email == "" && login == "" && r.Ok? ==>
                HasPrefix(r.value, UIDSigil) && Atoi(r.value[1..]) == Ok(uid)
      ensures r.Err? ==> r.error == Panic("empty PersonSpec")
    {
      if email != "" then Ok(email)
      else if login != "" then Ok(login)
      else if uid > 0 then
        var p := UIDSigil + Itoa(uid);
        assert p[1..] == Itoa(uid);
        AtoiItoa(uid);
        Ok(p)
      else Err(Panic("empty PersonSpec"))
    }

    /** The single router variable "PersonSpec"; it fails exactly when the encoding does. */
    function RouteVars(): (r: Result<map<string, string>>)
      ensures r.Ok? <==> PathComponent().Ok?
      ensures r.Ok? ==> r.value.Keys == {"PersonSpec"} && r.value["PersonSpec"] == PathComponent().value
      ensures r.Err? ==> r.error == Panic("empty PersonSpec")
    {
      match PathComponent()
      case Ok(p) => Ok(map["PersonSpec" := p])
      case Err(e) => Err(e)
    }
  }

  /** Reads a path component back: a "$" prefix must be followed by an integer that
      Atoi accepts; otherwise an '@' makes it an email and anything else, the empty
      string included, a login. Only the "$" form can fail. */
  function ParsePersonSpec(pathComponent: string): (r: Result<PersonSpec>)
    ensures HasPrefix(pathComponent, UIDSigil) ==>
              match Atoi(pathComponent[1..])
              case Ok(n) => r == Ok(PersonSpec("", "", n))
              case Err(e) => r == Err(e)
    ensures !HasPrefix(pathComponent, UIDSigil) && Contains(pathComponent, '@') ==>
              r == Ok(PersonSpec(pathComponent, "", 0))
    ensures !HasPrefix(pathComponent, UIDSigil) && !Contains(pathComponent, '@') ==>
              r == Ok(PersonSpec("", pathComponent, 0))
    ensures r.Err? ==> HasPrefix(pathComponent, UIDSigil)
  {
    if HasPrefix(pathComponent, UIDSigil) then
      match Atoi(pathComponent[1..])
      case Ok(uid) => Ok(PersonSpec("", "", uid))
      case Err(e) => Err(e)
    else if Contains(pathComponent, '@') then Ok(PersonSpec(pathComponent, "", 0))
    else Ok(PersonSpec("", pathComponent, 0))
  }

  /** A person spec whose encoding decodes to itself: exactly one field set, in a
      form the decoder attributes to that field. */
  predicate RoundTrips(s: PersonSpec) {
    || (s.email == "" && s.login == "" && s.uid > 0)
    || (s.login == "" && s.uid == 0 && Contains(s.email, '@') && !HasPrefix(s.email, UIDSigil))
    || (s.email == "" && s.uid == 0 && s.login != "" && !Contains(s.login, '@')
        && !HasPrefix(s.login, UIDSigil))
  }

  lemma PathComponentRoundTrip(s: PersonSpec)
    requires RoundTrips(s)
    ensures s.PathComponent().Ok?
    ensures ParsePersonSpec(s.PathComponent().value) == Ok(s)
  {
  }

  /** The other direction: a non-empty path component that parses, and is spelt the
      way the encoder spells it, is re-encoded to itself. */
  lemma ParseRoundTrip(p: string)
    requires p != ""
    requires ParsePersonSpec(p).Ok?
    requires HasPrefix(p, UIDSigil) ==> CanonicalPositive(p[1..])
    ensures ParsePersonSpec(p).value.PathComponent() == Ok(p)
  {
    if HasPrefix(p, UIDSigil) {
      var digits := p[1..];
      CanonicalPositiveValue(digits);
      ItoaDigitsValue(digits);
      assert p == UIDSigil + digits;
    }
  }

  /** The empty path component parses to an empty login, which cannot be encoded
      again; an email that starts with "$" is not read back as an email. */
  lemma ParseEdgeCases()
    ensures ParsePersonSpec("") == Ok(PersonSpec("", "", 0))
    ensures PersonSpec("", "", 0).PathComponent().Err?
    ensures PersonSpec("$a@b.com", "", 0).PathComponent() == Ok("$a@b.com")
    ensures ParsePersonSpec("$a@b.com").Err?
  {
  }

  /** A GitHub user, named by login or by GitHub user ID. */
  datatype GitHubUserSpec = GitHubUserSpec(login: string, id: int) {

    /** Only a login can be routed: a non-zero ID panics whatever the login, and an
        empty spec panics too. */
    function RouteVars(): (r: Result<map<string, string>>)
      ensures r.Ok? <==> id == 0 && login != ""
      ensures r.Ok? ==> r.value.Keys == {"GitHubUserSpec"} && r.value["GitHubUserSpec"] == login
      ensures id != 0 ==> r == Err(Panic("GitHubUserSpec ID not supported via HTTP API"))
      ensures id == 0 && login == "" ==> r == Err(Panic("empty GitHubUserSpec"))
    {
      if id != 0 then Err(Panic("GitHubUserSpec ID not supported via HTTP API"))
      else if login != "" then Ok(map["GitHubUserSpec" := login])
      else Err(Panic("empty GitHubUserSpec"))
    }
  }
}
