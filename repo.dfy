/** Repository identity helpers (sourcegraph/repo.go): clone URLs, host tests on
    repository URIs, collections keyed by URI, the database scan of a URI, the
    redirect error's message and the error classifiers. */
module Repo {
  import opened Wrappers
  import opened Strings

  /** A normalized repository identifier such as "github.com/user/repo"; Go's named
      string type `URI`. */
  datatype URI = URI(s: string) {

    /** Hosted on GitHub: the lower-cased URI starts with "github.com/". */
    function IsGitHubRepository(): (b: bool)
      ensures b <==> HasPrefixIgnoringCase(s, "github.com/")
    {
      LoweredPrefix(s, "github.com/");
      HasPrefix(ToLower(s), "github.com/")
    }

    /** Hosted on Google Code: the lower-cased URI starts with "code.google.com/p/". */
    function IsGoogleCodeRepository(): (b: bool)
      ensures b <==> HasPrefixIgnoringCase(s, "code.google.com/p/")
    {
      LoweredPrefix(s, "code.google.com/p/");
      HasPrefix(ToLower(s), "code.google.com/p/")
    }
  }

  /** No URI is on both hosts. */
  lemma HostsExclusive(u: URI)
    ensures !(u.IsGitHubRepository() && u.IsGoogleCodeRepository())
  {
    if u.IsGitHubRepository() {
      assert ToLower(u.s)[0] == 'g';
    }
  }

  /** The host tests ignore the case of ASCII letters. */
  lemma HostsIgnoreCase(u: URI)
    ensures URI(ToLower(u.s)).IsGitHubRepository() == u.IsGitHubRepository()
    ensures URI(ToLower(u.s)).IsGoogleCodeRepository() == u.IsGoogleCodeRepository()
  {
  }

  lemma HostExamples()
    ensures URI("GitHub.com/Foo/bar").IsGitHubRepository()
    ensures !URI("github.com").IsGitHubRepository()
    ensures URI("code.google.com/p/x").IsGoogleCodeRepository()
    ensures !URI("code.google.com/x").IsGoogleCodeRepository()
  {
  }

  /** A repository, reduced to the fields the helpers read; an empty
      `actualCloneURL` stands for the database NULL. */
  datatype Repo = Repo(uri: URI, cloneURL: string, actualCloneURL: string) {

    /** The most direct clone URL: the redirect target when there is one. */
    function GetActualCloneURL(): (u: string)
      ensures actualCloneURL != "" ==> u == actualCloneURL
      ensures actualCloneURL == "" ==> u == cloneURL
      ensures u == "" <==> cloneURL == "" && actualCloneURL == ""
    {
      if actualCloneURL == "" then cloneURL else actualCloneURL
    }

    /** Hosted on GitHub. `parseHost` stands for Go's url.Parse followed by reading
        the host (None when parsing fails); it is only consulted when there is a
        clone URL, and without one the answer is the URI's own host test. */
    function IsGitHubRepository(parseHost: string -> Option<string>): (b: bool)
      ensures GetActualCloneURL() == "" ==> b == uri.IsGitHubRepository()
      ensures GetActualCloneURL() != "" && parseHost(GetActualCloneURL()).None? ==> !b
      ensures GetActualCloneURL() != "" && parseHost(GetActualCloneURL()).Some? ==>
                (b <==> ToLower(parseHost(GetActualCloneURL()).value) == "github.com")
    {
      var cloneURLStr := GetActualCloneURL();
      if cloneURLStr == "" then uri.IsGitHubRepository()
      else
        match parseHost(cloneURLStr)
        case None => false
        case Some(host) => ToLower(host) == "github.com"
    }
  }

  /** The set of URIs of the repositories in `repos`. */
  function URISet(repos: seq<Repo>): (uris: set<URI>)
    ensures forall i :: 0 <= i < |repos| ==> repos[i].uri in uris
    ensures |uris| <= |repos|
  {
    if repos == [] then {}
    else URISet(repos[..|repos| - 1]) + {repos[|repos| - 1].uri}
  }

  /** URISet holds nothing but the URIs of the repositories. */
  lemma {:induction false} URISetOnly(repos: seq<Repo>, u: URI)
    requires u in URISet(repos)
    ensures exists i :: 0 <= i < |repos| && repos[i].uri == u
  {
    var n := |repos| - 1;
    if u != repos[n].uri {
      URISetOnly(repos[..n], u);
      var i :| 0 <= i < n && repos[..n][i].uri == u;
      assert repos[i].uri == u;
    }
  }

  /** Repo `repos[i]` is the last one in `repos[..n]` with its URI. */
  predicate LastWithURI(repos: seq<Repo>, i: nat, n: nat)
    requires i < n <= |repos|
  {
    forall j :: i < j < n ==> repos[j].uri != repos[i].uri
  }

  /** The map MapByURI builds: each repository in turn overwrites the entry for its URI. */
  function IndexByURI(repos: seq<Repo>): (m: map<URI, Repo>)
    ensures m.Keys == URISet(repos)
    ensures forall u :: u in m ==> m[u].uri == u
  {
    if repos == [] then map[]
    else
      var last := repos[|repos| - 1];
      IndexByURI(repos[..|repos| - 1])[last.uri := last]
  }

  /** Being last with a URI survives dropping the final repository, if it is not the one. */
  lemma LastWithURIInit(repos: seq<Repo>, i: nat)
    requires i < |repos| - 1 && LastWithURI(repos, i, |repos|)
    ensures LastWithURI(repos[..|repos| - 1], i, |repos| - 1)
  {
    var init := repos[..|repos| - 1];
    forall j | i < j < |init|
      ensures init[j].uri != init[i].uri
    {
      assert init[j] == repos[j] && init[i] == repos[i];
    }
  }

  /** Each URI maps to the last repository in the slice that has it. */
  lemma {:induction false} IndexByURILastWins(repos: seq<Repo>, i: nat)
    requires i < |repos| && LastWithURI(repos, i, |repos|)
    ensures repos[i].uri in IndexByURI(repos) && IndexByURI(repos)[repos[i].uri] == repos[i]
  {
    var n := |repos| - 1;
    var init := repos[..n];
    var last := repos[n];
    var m := IndexByURI(init);
    assert IndexByURI(repos) == m[last.uri := last];
    if i < n {
      LastWithURIInit(repos, i);
      IndexByURILastWins(init, i);
      assert init[i] == repos[i];
      assert last.uri != repos[i].uri;
    }
  }

  /** Indexes `repos` by URI; when several share a URI the last one wins. */
  method MapByURI(repos: seq<Repo>) returns (repoMap: map<URI, Repo>)
    ensures repoMap == IndexByURI(repos)
    ensures repoMap.Keys == URISet(repos) && |repoMap| <= |repos|
    ensures forall i :: 0 <= i < |repos| && LastWithURI(repos, i, |repos|) ==>
              repos[i].uri in repoMap && repoMap[repos[i].uri] == repos[i]
  {
    repoMap := map[];
    for n := 0 to |repos|
      invariant repoMap == IndexByURI(repos[..n])
    {
      var repo := repos[n];
      assert repos[..n + 1][..n] == repos[..n];
      repoMap := repoMap[repo.uri := repo];
    }
    assert repos[..|repos|] == repos;
    assert |repoMap| == |repoMap.Keys|;
    forall i | 0 <= i < |repos| && LastWithURI(repos, i, |repos|)
      ensures repos[i].uri in repoMap && repoMap[repos[i].uri] == repos[i]
    {
      IndexByURILastWins(repos, i);
    }
  }

  /** Go's `Repositories`, a slice of repositories. */
  datatype Repositories = Repositories(repos: seq<Repo>) {

    /** The URIs of the repositories, position by position. */
    method URIs() returns (uris: seq<URI>)
      ensures |uris| == |repos|
      ensures forall i :: 0 <= i < |repos| ==> uris[i] == repos[i].uri
    {
      var a := new URI[|repos|];
      for i := 0 to |repos|
        invariant forall k :: 0 <= k < i ==> a[k] == repos[k].uri
      {
        a[i] := repos[i].uri;
      }
      uris := a[..];
    }
  }

  /** Go's `URIs`, a slice of URIs. */
  datatype URIs = URIs(us: seq<URI>) {

    /** The URIs as plain strings, position by position. */
    method Strings() returns (s: seq<string>)
      ensures |s| == |us|
      ensures forall i :: 0 <= i < |us| ==> s[i] == us[i].s
    {
      var a := new string[|us|];
      for i := 0 to |us|
        invariant forall k :: 0 <= k < i ==> a[k] == us[k].s
      {
        a[i] := us[i].s;
      }
      s := a[..];
    }
  }

  newtype byte = x: int | 0 <= x < 256

  /** Go's string([]byte): one character per byte, with the byte's code. */
  function BytesToString(data: seq<byte>): (s: string)
    ensures |s| == |data|
    ensures forall i :: 0 <= i < |data| ==> s[i] as int == data[i] as int
  {
    seq(|data|, i requires 0 <= i < |data| => (data[i] as int) as char)
  }

  /** The value a database driver hands to Scan: NULL, a byte slice, or anything
      else (shown as Go's %v would print it). */
  datatype ScanValue = Nil | Bytes(data: seq<byte>) | Other(shown: string)

  /** A variable of type URI, written through by Scan as Go's pointer receiver is. */
  class URIRef {
    var value: URI

    constructor (u: URI)
      ensures value == u
    {
      value := u;
    }

    /** database/sql.Scanner: NULL scans as the empty URI, bytes as their string,
        and any other value is an error that leaves the variable as it was. */
    method Scan(v: ScanValue) returns (err: Option<Error>)
      modifies this
      ensures v.Nil? ==> value == URI("") && err == None
      ensures v.Bytes? ==> value == URI(BytesToString(v.data)) && err == None
      ensures v.Other? ==>
                value == old(value) && err == Some(Failure("*sourcegraph.URI.Scan failed: " + v.shown))
    {
      match v
      case Nil =>
        value := URI("");
        err := None;
      case Bytes(data) =>
        value := URI(BytesToString(data));
        err := None;
      case Other(shown) =>
        err := Some(Failure("*sourcegraph.URI.Scan failed: " + shown));
    }
  }

  /** The text before the redirect target in an ErrRedirect message. */
  const RedirectPrefix := "the repository requested exists at another URI ("

  predicate IsParen(c: char) {
    c == '(' || c == ')'
  }

  predicate NoParens(s: string) {
    forall i :: 0 <= i < |s| ==> !IsParen(s[i])
  }

  /** The error telling a caller that the repository lives at another URI. */
  datatype ErrRedirect = ErrRedirect(redirectURI: URI) {

    function Error(): (msg: string)
      ensures HasPrefix(msg, RedirectPrefix) && msg[|msg| - 1] == ')'
      ensures msg[|RedirectPrefix|..|msg| - 1] == redirectURI.s
    {
      RedirectPrefix + redirectURI.s + ")"
    }
  }

  /** The first '(' or ')' at or after position i of s, or |s| when there is none. */
  function NextParen(s: string, i: nat): (k: nat)
    requires i <= |s|
    ensures i <= k <= |s|
    ensures k < |s| ==> IsParen(s[k])
    ensures forall j :: i <= j < k ==> !IsParen(s[j])
    decreases |s| - i
  {
    if i == |s| || IsParen(s[i]) then i else NextParen(s, i + 1)
  }

  /** The capture of the pattern
        the repository requested exists at another URI \(([^\(\)]*)\)
      when the match starts at position i of msg. */
  function MatchAt(msg: string, i: nat): (m: Option<string>)
    requires i <= |msg|
    ensures m.Some? ==> NoParens(m.value) && HasPrefix(msg[i..], RedirectPrefix + m.value + ")")
  {
    if !HasPrefix(msg[i..], RedirectPrefix) then None
    else
      var start := i + |RedirectPrefix|;
      var k := NextParen(msg, start);
      if k < |msg| && msg[k] == ')' then
        var u := msg[start..k];
        assert msg[i..][..|RedirectPrefix + u + ")"|] == RedirectPrefix + u + ")";
        Some(u)
      else None
  }

  /** Conversely, wherever the message holds the redirect text around a capture
      without parentheses, the pattern matches there and captures exactly that. */
  lemma MatchAtComplete(msg: string, i: nat, u: string)
    requires i <= |msg| && NoParens(u)
    requires HasPrefix(msg[i..], RedirectPrefix + u + ")")
    ensures MatchAt(msg, i) == Some(u)
  {
    var start := i + |RedirectPrefix|;
    var w := RedirectPrefix + u + ")";
    assert msg[i..][..|w|] == w;
    assert msg[i..][..|RedirectPrefix|] == RedirectPrefix;
    forall j | start <= j < start + |u|
      ensures msg[j] == u[j - start]
    {
      assert msg[j] == w[j - i];
    }
    assert msg[start + |u|] == w[|w| - 1];
    var k := NextParen(msg, start);
    assert k == start + |u|;
    assert msg[start..k] == u;
  }

  /** The leftmost position at or after i where the pattern matches, or |msg| + 1. */
  function FirstMatch(msg: string, i: nat): (j: nat)
    requires i <= |msg|
    ensures i <= j <= |msg| + 1
    ensures j <= |msg| ==> MatchAt(msg, j).Some?
    ensures forall k :: i <= k < j && k <= |msg| ==> MatchAt(msg, k).None?
    decreases |msg| - i
  {
    if MatchAt(msg, i).Some? then i
    else if i == |msg| then |msg| + 1
    else FirstMatch(msg, i + 1)
  }

  /** Recovers a redirect from an error message by the leftmost match of the pattern
      above; nil when there is none. */
  function ErrRedirectFromString(msg: string): (r: Option<ErrRedirect>)
    ensures r.Some? ==> NoParens(r.value.redirectURI.s)
    ensures r.Some? <==> exists j :: 0 <= j <= |msg| && MatchAt(msg, j).Some?
    ensures r.Some? ==>
              (exists j :: 0 <= j <= |msg| &&
                 HasPrefix(msg[j..], RedirectPrefix + r.value.redirectURI.s + ")"))
    ensures r.Some? ==>
              (exists j :: 0 <= j <= |msg| && MatchAt(msg, j) == Some(r.value.redirectURI.s) &&
                 forall k :: 0 <= k < j ==> MatchAt(msg, k).None?)
  {
    var j := FirstMatch(msg, 0);
    if j <= |msg| then Some(ErrRedirect(URI(MatchAt(msg, j).value))) else None
  }

  /** The message of a redirect reads back as that redirect, provided its URI has
      no parentheses. */
  lemma ErrRedirectRoundTrip(e: ErrRedirect)
    requires NoParens(e.redirectURI.s)
    ensures ErrRedirectFromString(e.Error()) == Some(e)
  {
    var msg := e.Error();
    assert msg[0..] == msg;
    MatchAtComplete(msg, 0, e.redirectURI.s);
    assert FirstMatch(msg, 0) == 0;
  }

  /** A message that nowhere contains the redirect text yields nil. */
  lemma NoRedirectText(msg: string)
    requires forall j :: 0 <= j <= |msg| ==> !HasPrefix(msg[j..], RedirectPrefix)
    ensures ErrRedirectFromString(msg) == None
  {
  }

  /** The errors the repository service returns. The sentinel values are compared
      by identity in Go, so another error with the same text is `OtherError`. */
  datatype RepoError =
    | ErrNotExist
    | ErrForbidden
    | ErrNotPersisted
    | ErrNonStandardURI
    | ErrNoScheme
    | Redirect(redirect: ErrRedirect)
    | Renamed(oldURI: URI, newURI: URI)
    | OtherError(message: string)

  /** Whether err says that the repository is not there; None stands for a nil error. */
  function IsNotPresent(err: Option<RepoError>): (b: bool)
    ensures b ==> err.Some?
    ensures b <==> err.Some? && (err.value.ErrNotExist? || err.value.ErrNotPersisted?)
  {
    err == Some(ErrNotExist) || err == Some(ErrNotPersisted)
  }

  /** Whether err says that the repository may no longer be served. */
  function IsForbidden(err: Option<RepoError>): (b: bool)
    ensures b <==> err.Some? && err.value.ErrForbidden?
  {
    err == Some(ErrForbidden)
  }

  /** IsNotPresent holds of the two sentinels ErrNotExist and ErrNotPersisted and of
      nothing else: not of nil, not of a redirect (whatever the doc comment in
      front of it says), and not of an unrelated error with the same text.
      IsForbidden holds of ErrForbidden alone. */
  lemma ClassifierCases(err: Option<RepoError>)
    ensures IsNotPresent(Some(ErrNotExist)) && IsNotPresent(Some(ErrNotPersisted))
    ensures IsForbidden(Some(ErrForbidden))
    ensures IsNotPresent(err) <==> err == Some(ErrNotExist) || err == Some(ErrNotPersisted)
    ensures IsForbidden(err) <==> err == Some(ErrForbidden)
    ensures !(IsNotPresent(err) && IsForbidden(err))
    ensures err == None ==> !IsNotPresent(err) && !IsForbidden(err)
    ensures err.Some? && !err.value.ErrNotExist? && !err.value.ErrNotPersisted? ==> !IsNotPresent(err)
    ensures err.Some? && (err.value.Redirect? || err.value.Renamed? || err.value.OtherError?
                          || err.value.ErrNonStandardURI? || err.value.ErrNoScheme?) ==>
              !IsNotPresent(err) && !IsForbidden(err)
  {
  }
}
