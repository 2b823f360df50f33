/** Repository specifiers (sourcegraph/repositories.go): how a repository, and a
    repository at a revision, is written into a URL path component or a map of
    router variables, and read back. */
module Repositories {
  import opened Wrappers
  import opened Strings
  import opened Strconv

  /** Reading a key from a Go map of route variables: an absent key reads as "". */
  function Lookup(vars: map<string, string>, key: string): (v: string)
    ensures key in vars ==> v == vars[key]
    ensures key !in vars ==> v == ""
  {
    if key in vars then vars[key] else ""
  }

  /** The sigil that marks a numeric repository ID in a path component. */
  const RIDSigil := "R$"

  /** A repository at a revision; an empty `commitID` means the default branch. */
  datatype RepositorySpec = RepositorySpec(uri: string, commitID: string) {

    /** The router variables: the URI always, and the revision only when one is given. */
    function RouteVars(): (m: map<string, string>)
      ensures "RepoURI" in m && m["RepoURI"] == uri
      ensures "Rev" in m <==> commitID != ""
      ensures "Rev" in m ==> m["Rev"] == commitID
      ensures m.Keys <= {"RepoURI", "Rev"}
    {
      var m := map["RepoURI" := uri];
      if commitID != "" then m["Rev" := commitID] else m
    }
  }

  /** A repository named by its URI or by its numeric ID; the URI wins when both are set. */
  datatype RepositorySpec2 = RepositorySpec2(uri: string, rid: int) {

    /** The path component: the URI verbatim, else "R$" and the ID in decimal; a
        spec with neither a URI nor a positive ID panics. */
    function PathComponent(): (r: Result<string>)
      ensures r.Ok? <==> uri != "" || rid > 0
      ensures uri != "" ==> r == Ok(uri)
      ensures uri == "" && r.Ok? ==> HasPrefix(r.value, RIDSigil) && Atoi(r.value[2..]) == Ok(rid)
      ensures r.Err? ==> r.error == Panic("empty RepositorySpec2")
    {
      if uri != "" then Ok(uri)
      else if rid > 0 then
        var p := RIDSigil + Itoa(rid);
        assert p[2..] == Itoa(rid);
        AtoiItoa(rid);
        Ok(p)
      else Err(Panic("empty RepositorySpec2"))
    }

    /** Only URI specs can be routed: any non-zero ID panics, even when a URI is set. */
    function RouteVars(): (r: Result<map<string, string>>)
      ensures r.Ok? <==> rid == 0
      ensures r.Ok? ==> r.value.Keys == {"RepoURI"} && r.value["RepoURI"] == uri
      ensures r.Err? ==> r.error == Panic("RID not supported yet")
    {
      if rid != 0 then Err(Panic("RID not supported yet")) else Ok(map["RepoURI" := uri])
    }
  }

  /** Reads a path component back: "" is an error, an "R$" prefix must be followed by
      an integer that Atoi accepts, and anything else is a URI. */
  function ParseRepositorySpec2(pathComponent: string): (r: Result<RepositorySpec2>)
    ensures pathComponent == "" ==> r == Err(Failure("empty repository spec"))
    ensures HasPrefix(pathComponent, RIDSigil) ==>
              match Atoi(pathComponent[2..])
              case Ok(n) => r == Ok(RepositorySpec2("", n))
              case Err(e) => r == Err(e)
    ensures pathComponent != "" && !HasPrefix(pathComponent, RIDSigil) ==>
              r == Ok(RepositorySpec2(pathComponent, 0))
    ensures r.Ok? ==> r.value.uri == "" || r.value.rid == 0
  {
    if pathComponent == "" then Err(Failure("empty repository spec"))
    else if HasPrefix(pathComponent, RIDSigil) then
      match Atoi(pathComponent[2..])
      case Ok(rid) => Ok(RepositorySpec2("", rid))
      case Err(e) => Err(e)
    else Ok(RepositorySpec2(pathComponent, 0))
  }

  /** A spec whose encoding decodes to itself: exactly one field set, and a URI that
      does not begin with the ID sigil. */
  predicate RoundTrips(s: RepositorySpec2) {
    || (s.rid == 0 && s.uri != "" && !HasPrefix(s.uri, RIDSigil))
    || (s.uri == "" && s.rid > 0)
  }

  lemma PathComponentRoundTrip(s: RepositorySpec2)
    requires RoundTrips(s)
    ensures s.PathComponent().Ok?
    ensures ParseRepositorySpec2(s.PathComponent().value) == Ok(s)
  {
  }

  /** The other direction: a path component that parses, and is spelt the way the
      encoder spells it, is re-encoded to itself. */
  lemma ParseRoundTrip(p: string)
    requires ParseRepositorySpec2(p).Ok?
    requires HasPrefix(p, RIDSigil) ==> CanonicalPositive(p[2..])
    ensures ParseRepositorySpec2(p).value.PathComponent() == Ok(p)
  {
    if HasPrefix(p, RIDSigil) {
      var digits := p[2..];
      CanonicalPositiveValue(digits);
      ItoaDigitsValue(digits);
      assert p == RIDSigil + digits;
    }
  }

  /** Why the spelling condition above is needed: an ID written with a leading zero
      parses, but is re-encoded without it. */
  lemma ParseNotCanonical()
    ensures ParseRepositorySpec2("R$07") == Ok(RepositorySpec2("", 7))
    ensures RepositorySpec2("", 7).PathComponent() == Ok("R$7")
    ensures ParseRepositorySpec2("R$-3") == Ok(RepositorySpec2("", -3))
    ensures RepositorySpec2("", -3).PathComponent().Err?
  {
    assert "R$07"[2..] == "07" && "07"[..1] == "0";
    assert "R$-3"[2..] == "-3" && "-3"[1..] == "3";
    assert DigitChar(7) == '7';
    assert RIDSigil + Itoa(7) == "R$7";
  }

  /** Reads the "RepoURI" route variable (a missing one reads as "" and is rejected). */
  function UnmarshalRepositorySpec2(routeVars: map<string, string>): (r: Result<RepositorySpec2>)
    ensures "RepoURI" !in routeVars ==> r == Err(Failure("empty repository spec"))
    ensures "RepoURI" in routeVars ==> r == ParseRepositorySpec2(routeVars["RepoURI"])
  {
    ParseRepositorySpec2(Lookup(routeVars, "RepoURI"))
  }

  lemma RouteVarsRoundTrip(s: RepositorySpec2)
    requires s.rid == 0 && s.uri != "" && !HasPrefix(s.uri, RIDSigil)
    ensures s.RouteVars().Ok?
    ensures UnmarshalRepositorySpec2(s.RouteVars().value) == Ok(s)
  {
  }

  /** A repository at a revision, built on a `RepositorySpec2`; an empty `rev` leaves
      the revision unresolved. */
  datatype RepoRevSpec = RepoRevSpec(repo: RepositorySpec2, rev: string) {

    /** The embedded spec's route variables, with "Rev" added exactly when `rev` is set. */
    function RouteVars(): (r: Result<map<string, string>>)
      ensures r.Err? <==> repo.RouteVars().Err?
      ensures r.Err? ==> r.error == repo.RouteVars().error
      ensures r.Ok? ==> repo.RouteVars().value.Keys <= r.value.Keys
      ensures r.Ok? ==> r.value["RepoURI"] == repo.uri
      ensures r.Ok? ==> ("Rev" in r.value <==> rev != "")
      ensures r.Ok? && rev != "" ==> r.value["Rev"] == rev
      ensures r.Ok? ==> r.value.Keys <= {"RepoURI", "Rev"}
    {
      match repo.RouteVars()
      case Err(e) => Err(e)
      case Ok(m) => Ok(if rev != "" then m["Rev" := rev] else m)
    }
  }

  /** Rebuilds a RepoRevSpec from route variables; when the repository part does not
      parse, its error is returned unchanged. */
  function UnmarshalRepoRevSpec(routeVars: map<string, string>): (r: Result<RepoRevSpec>)
    ensures UnmarshalRepositorySpec2(routeVars).Err? ==>
              r == Err(UnmarshalRepositorySpec2(routeVars).error)
    ensures UnmarshalRepositorySpec2(routeVars).Ok? ==>
              r.Ok? && r.value.repo == UnmarshalRepositorySpec2(routeVars).value
    ensures r.Ok? ==> r.value.rev == Lookup(routeVars, "Rev")
  {
    match UnmarshalRepositorySpec2(routeVars)
    case Err(e) => Err(e)
    case Ok(repoSpec) => Ok(RepoRevSpec(repoSpec, Lookup(routeVars, "Rev")))
  }

  lemma RepoRevSpecRoundTrip(s: RepoRevSpec)
    requires s.repo.rid == 0 && s.repo.uri != "" && !HasPrefix(s.repo.uri, RIDSigil)
    ensures s.RouteVars().Ok?
    ensures UnmarshalRepoRevSpec(s.RouteVars().value) == Ok(s)
  {
  }

  /** A repository as returned by the API, reduced to the two fields `Spec` reads. */
  datatype Repository = Repository(uri: string, commitID: string) {

    /** The spec that names this repository at its resolved commit. */
    function Spec(): (s: RepositorySpec)
      ensures s.RouteVars()["RepoURI"] == uri
      ensures "Rev" in s.RouteVars() <==> commitID != ""
      ensures "Rev" in s.RouteVars() ==> s.RouteVars()["Rev"] == commitID
    {
      RepositorySpec(uri, commitID)
    }
  }
}
