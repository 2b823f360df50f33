# Sourcegraph API client: specifier codec and repository helpers

A Dafny model of the part of the Go client library for the Sourcegraph API
(package `sourcegraph`) that has logic of its own:

- the **specifier codec**. A repository is named by a URI or by a numeric ID
  (`RepositorySpec2`). A repository can also be named at a revision
  (`RepositorySpec`, `RepoRevSpec`). A person is named by email, login or
  numeric user ID (`PersonSpec`). A GitHub user is named by a login
  (`GitHubUserSpec`). Each of these is written either into a single URL path
  component or into a map of router variables, and read back. The sigils
  `R$` and `$` mark numeric IDs;
- the **repository identity helpers** of `repo.go`:
  - the clone URL actually used;
  - the GitHub and Google Code host tests;
  - indexing repositories by URI, and listing their URIs;
  - the database scan of a URI;
  - the redirect error's message and how it is parsed back;
  - the two error classifiers.

Modules follow the Go files:

- `Repositories` models `repositories.go`.
- `People` models `people.go`.
- `Repo` models `repo.go`.

Three helper modules stand for the Go library functions the code calls:

- `Strings` holds `HasPrefix`, one-character `Contains` and ASCII `ToLower`.
- `Strconv` holds `Itoa` and `Atoi`.
- `Wrappers` holds `Option` and `Result`.

How Go's failures are modelled:

- A Go `panic` becomes `Err(Panic(reason))`, carrying the panic's own string.
- A returned `error` also becomes an `Err`:
  - `Failure(text)` for an `errors.New` or `fmt.Errorf` value;
  - `SyntaxError("Atoi", input)` for strconv's syntax error.
- A nil `error` is `None`.
- `ParseRepositorySpec2`, `ParsePersonSpec` and `UnmarshalRepoRevSpec` return a
  zero-valued spec next to their error. The model keeps only the error.

Go map lookups of a missing key read as `""` (`Repositories.Lookup`).

Three behaviours of the Go code are easy to misread; the model follows the code:

- A numeric suffix is read by `strconv.Atoi`, which takes an optional sign
  and leading zeros. So `"R$-3"` parses to ID -3 and `"$007"` to user ID 7.
  The encoders only write positive IDs, with no sign and no leading zero.
- A numeric GitHub user ID is not a recoverable error. `GitHubUserSpec.RouteVars`
  panics on it.
- `RepositorySpec2.RouteVars` does not go through `PathComponent`. It panics
  on any non-zero ID, even when a URI is set.

## Model

| member | source | states |
|---|---|---|
| `Repositories.RepositorySpec.RouteVars` | sourcegraph/repositories.go:141-147 | "RepoURI" always maps to the URI; "Rev" is present iff the commit ID is non-empty, and then maps to it; there are no other keys |
| `Repositories.RepositorySpec2.PathComponent` | sourcegraph/repositories.go:158-167 | succeeds iff the URI is non-empty or the ID is positive; a non-empty URI is returned verbatim whatever the ID; otherwise the result starts with "R$" and Atoi reads the ID back from the rest; failure is the panic "empty RepositorySpec2" |
| `Repositories.RepositorySpec2.RouteVars` | sourcegraph/repositories.go:169-174 | succeeds iff the ID is 0, even when a URI is set; on success the map is exactly {"RepoURI": URI}; otherwise the panic "RID not supported yet" |
| `Repositories.ParseRepositorySpec2` | sourcegraph/repositories.go:176-188 | "" is the error "empty repository spec"; an "R$" prefix yields {RID: n} when Atoi reads n from the rest and Atoi's error otherwise (so "R$" alone fails); any other input is {URI: input}; a success never sets both fields |
| `Repositories.PathComponentRoundTrip` | sourcegraph/repositories.go:159-188 | parsing the path component gives the spec back when exactly one field is set: ID 0 and a non-empty URI not starting with "R$", or an empty URI and a positive ID |
| `Repositories.ParseRoundTrip` | sourcegraph/repositories.go:159-188 | the other direction: a path component that parses is re-encoded to itself, provided an "R$" suffix is spelt canonically (digits only, no leading zero) |
| `Repositories.ParseNotCanonical` | sourcegraph/repositories.go:163-186 | why that proviso is needed: "R$07" parses to ID 7 but ID 7 encodes as "R$7"; "R$-3" parses to ID -3, which cannot be encoded at all |
| `Repositories.UnmarshalRepositorySpec2` | sourcegraph/repositories.go:190-195 | parses the "RepoURI" variable; a missing variable is the "empty repository spec" error |
| `Repositories.RouteVarsRoundTrip` | sourcegraph/repositories.go:169-195 | unmarshalling the route variables of a spec with ID 0 and a non-empty URI not starting with "R$" gives the spec back |
| `Repositories.RepoRevSpec.RouteVars` | sourcegraph/repositories.go:205-211 | fails exactly when, and as, the embedded spec's route variables fail; otherwise it holds the embedded map's keys, "RepoURI" is the URI, "Rev" is present iff the revision is non-empty and then maps to it, and there are no other keys |
| `Repositories.UnmarshalRepoRevSpec` | sourcegraph/repositories.go:213-222 | when the repository part fails to parse, the result is that same error; otherwise the repository part is the parsed spec and the revision is the "Rev" variable, "" when absent |
| `Repositories.RepoRevSpecRoundTrip` | sourcegraph/repositories.go:205-222 | unmarshalling the route variables of a RepoRevSpec with ID 0 and a non-empty URI not starting with "R$" gives it back, for an empty revision too |
| `Repositories.Repository.Spec` | sourcegraph/repositories.go:261-267 | the spec routes to the repository's URI, with a "Rev" variable iff the resolved commit ID is non-empty, and that variable is the commit ID |
| `People.PersonSpec.PathComponent` | sourcegraph/people.go:77-89 | succeeds iff the email or login is non-empty or the user ID is positive; the precedence is email, then login, then "$" with the user ID, which Atoi reads back from the rest; failure is the panic "empty PersonSpec" |
| `People.PersonSpec.RouteVars` | sourcegraph/people.go:91-93 | succeeds exactly when PathComponent does, and then is the one-entry map {"PersonSpec": path component}; otherwise the same panic |
| `People.ParsePersonSpec` | sourcegraph/people.go:101-112 | a "$" prefix yields {UID: n} when Atoi reads n from the rest and Atoi's error otherwise; other inputs never fail: {Email: s} if s contains '@', else {Login: s}, so "" gives an empty login |
| `People.PathComponentRoundTrip` | sourcegraph/people.go:78-112 | parsing the path component gives the spec back when exactly one field is set: a positive user ID, an email containing '@' not starting with "$", or a non-empty login without '@' not starting with "$" |
| `People.ParseRoundTrip` | sourcegraph/people.go:78-112 | the other direction: a non-empty path component that parses is re-encoded to itself, provided a "$" suffix is spelt canonically |
| `People.ParseEdgeCases` | sourcegraph/people.go:78-111 | "" parses to an empty login that cannot be encoded again; an email starting with "$" encodes verbatim but does not parse back |
| `People.GitHubUserSpec.RouteVars` | sourcegraph/people.go:234-241 | a non-zero ID panics whatever the login; with ID 0 a non-empty login gives exactly {"GitHubUserSpec": login}; an empty spec panics with "empty GitHubUserSpec" |
| `Strconv.Itoa` | sourcegraph/repositories.go:164 | the result is a non-empty run of digits whose value is the argument, with no leading zero when the argument is positive |
| `Strconv.Atoi` | sourcegraph/repositories.go:184 | succeeds iff the input is a non-empty run of digits, or '+' or '-' followed by a non-empty run of digits; digits read as their value, '+' keeps it and '-' negates it; every failure is the syntax error naming the input |
| `Strconv.AtoiItoa` | sourcegraph/people.go:86-105 | Atoi reads back what Itoa writes, with or without an explicit '+', and a '-' negates it |
| `Strconv.ItoaDigitsValue` | sourcegraph/people.go:86-105 | a canonical positive spelling is exactly what Itoa writes for its value |
| `Strconv.AtoiNonCanonical` | sourcegraph/people.go:105 | Atoi also reads leading zeros and a '+' sign, and rejects "", "+" and "7a" |
| `Strings.LoweredPrefix` | sourcegraph/repo.go:142 | testing a prefix of the lower-cased string is the same as matching that prefix with ASCII letter case ignored |
| `Strings.ToLower` | sourcegraph/repo.go:142 | length is kept, each character is lower-cased on its own, and no capital ASCII letter remains |
| `Repo.HostsExclusive` | sourcegraph/repo.go:140-149 | no URI is both a GitHub and a Google Code repository |
| `Repo.HostsIgnoreCase` | sourcegraph/repo.go:140-149 | both host tests give the same answer for a URI and its lower-cased form |
| `Repo.HostExamples` | sourcegraph/repo.go:140-149 | "GitHub.com/Foo/bar" is on GitHub but "github.com" is not; "code.google.com/p/x" is on Google Code but "code.google.com/x" is not |
| `Repo.Repo.GetActualCloneURL` | sourcegraph/repo.go:106-112 | the actual clone URL when there is one, else the clone URL; empty only when both are |
| `Repo.URI.IsGitHubRepository` | sourcegraph/repo.go:140-143 | holds iff the URI starts with "github.com/" when letter case is ignored |
| `Repo.URI.IsGoogleCodeRepository` | sourcegraph/repo.go:145-149 | holds iff the URI starts with "code.google.com/p/" when letter case is ignored |
| `Repo.Repo.IsGitHubRepository` | sourcegraph/repo.go:91-104 | without a clone URL it is the URI's GitHub host test; with one, it holds iff the URL's host parses and lower-cases to "github.com" |
| `Repo.URISet` | sourcegraph/repo.go:119-125 | holds the URI of every repository, and has at most as many elements as there are repositories |
| `Repo.URISetOnly` | sourcegraph/repo.go:119-125 | every element of the set is the URI of some repository |
| `Repo.IndexByURI` | sourcegraph/repo.go:119-125 | the keys are exactly the repositories' URIs, and each key maps to a repository with that URI |
| `Repo.IndexByURILastWins` | sourcegraph/repo.go:119-125 | each URI maps to the last repository in the slice that has it |
| `Repo.MapByURI` | sourcegraph/repo.go:119-125 | the loop builds exactly that map: its keys are the repositories' URIs, it has no more entries than there are repositories, and each URI maps to the last repository with it |
| `Repo.Repositories.URIs` | sourcegraph/repo.go:127-135 | a slice of the same length whose element i is the URI of repository i |
| `Repo.URIs.Strings` | sourcegraph/repo.go:168-178 | a slice of the same length whose element i is URI i as a string |
| `Repo.BytesToString` | sourcegraph/repo.go:156-157 | one character per byte, with the byte's code |
| `Repo.URIRef.Scan` | sourcegraph/repo.go:151-161 | NULL sets the URI to "" and bytes set it to their string, both with a nil error; any other value leaves the URI unchanged and returns the "Scan failed" error |
| `Repo.ErrRedirect.Error` | sourcegraph/repo.go:222-224 | the message is the fixed redirect text, then the URI, then ")" |
| `Repo.MatchAt` | sourcegraph/repo.go:226 | a match at a position captures text without parentheses, and the message holds the redirect text, the capture and ")" there |
| `Repo.MatchAtComplete` | sourcegraph/repo.go:226 | wherever the message holds the redirect text around a capture without parentheses, the pattern matches there with exactly that capture |
| `Repo.FirstMatch` | sourcegraph/repo.go:228-229 | the leftmost position with a match, after every position without one |
| `Repo.ErrRedirectFromString` | sourcegraph/repo.go:228-233 | a redirect is returned iff the pattern matches somewhere; its URI has no parentheses and sits between the redirect text and ")" in the message; it is the capture of the leftmost match |
| `Repo.ErrRedirectRoundTrip` | sourcegraph/repo.go:222-233 | parsing the message of a redirect whose URI has no '(' or ')' gives the redirect back |
| `Repo.NoRedirectText` | sourcegraph/repo.go:228-233 | a message that nowhere contains the redirect text gives nil |
| `Repo.ClassifierCases` | sourcegraph/repo.go:235-243 | IsNotPresent holds exactly of ErrNotExist and ErrNotPersisted, and not of nil, redirects, renames or look-alike errors; IsForbidden holds exactly of ErrForbidden; the two never both hold |
| `Repo.IsNotPresent` | sourcegraph/repo.go:235-239 | holds iff there is an error and it is ErrNotExist or ErrNotPersisted |
| `Repo.IsForbidden` | sourcegraph/repo.go:241-243 | holds iff there is an error and it is ErrForbidden |

## Left out

- The service methods of `repositories.go` and `people.go` (`Get`, `List`,
  `ListCommits`, …). They build a URL through the router, send it over HTTP
  and decode JSON. The router and the transport are not part of this model.
- The mock services and everything under `sourcegraph/mock/`. Each is a set
  of one-line forwards to function fields.
- `Badge.HTML` and `Counter.HTML`. They only wrap HTML escaping and string
  formatting.
- The URL parser behind `Repo.IsGitHubRepository`. It is a parameter,
  `parseHost`, standing for `url.Parse` followed by reading the host.
- `Repo.RepoSpec`. Its `RepoSpec` type is not part of this model.
- `URI.Value`, `RepoStatType.Value`, `RepoStatType.Scan`,
  `ExternalHostTimeout` and the repository statistic constants. They are
  database driver glue and a time duration.
- `ErrRenamed.Error` and the texts of the sentinel errors. Only the identity
  of the sentinels matters to the classifiers, and Go's `%q` quoting is not
  modelled.
- `Strings.ToLower`: ASCII letters only, where Go's `strings.ToLower` folds all
  of Unicode.
- `Strconv.Atoi`: no out-of-range error, because integers are unbounded here.
- `Strconv.Itoa`: only non-negative arguments, because the encoders call it
  only with positive IDs.
- `Repo.MapByURI` and `Repo.Repositories.URIs`: they work on repository values
  where Go holds `*Repo` pointers. Pointer identity, aliasing and the panic on
  a nil element are therefore not modelled.
- Strings are modelled one character per byte (`Repo.BytesToString`). UTF-8
  decoding of multi-byte characters is not modelled.
- `Repo.URIRef.Scan`: Go's `%v` rendering of an unexpected value is a string
  given with the value.
- Fields of `Repo` and `Repository` that no modelled operation reads, such as
  the name, description, VCS, stars and flags.
