# A verified model of a minimal issue-tracker search client

The modelled program is a small Python client for the REST search API of
an issue tracker (Jira). The client is built once, by its constructor or by
a basic-auth login. It keeps a base URI, an API version, a TLS-verification
flag and optional credentials, and it never changes them afterwards. A
search turns a small bag of keyword filters (`status`, `user`,
`search_type`, `priority`) into a JQL query URI. It then sends a GET to
that URI and attaches the session cookies when the client holds a
`BasicAuth`.

The model is pure, because the source never mutates the client after
construction:

- `wrappers.dfy` holds module `Wrappers`: `Option` and `Result`.
- `jql.dfy` holds module `Jql`, a reference definition of the query text.
  A query is a list of `field=value` clauses joined by `" and "`.
- `jira.dfy` holds module `Jira`: the client record, `BasicAuth` (its field
  `cookies` is the accessor), the filter bag, the URI builder `BuildUri`,
  the search request, the login decision and the two convenience
  searches.

A login response and a search are not performed. The login takes the
response as a parameter: its `ok` flag and its cookies. A search is modelled
as the request it would send: the URI, the cookies and the TLS flag.

The URI builder is proved equal to the independent clause-list definition
(`BuildUriIsQueryText`). The source's literal double space before
`priority` appears there as a clause whose field text is `" priority"`. The
string-level properties are proved as separate lemmas: the fixed prefix,
the `"Open"` default, the user clause present iff both of its keys are, the
priority clause present iff given, and the fixed clause order.

## Model

| member | source | states |
|---|---|---|
| `Jira.NewClient` | jira/jira.py:18-25 | The constructor stores base URI, API version, credentials and TLS flag unchanged. Its defaults are no base URI, `"latest"`, no credentials and `true`. |
| `Jira.Query` | jira/jira.py:30-40 | The filters denote one to three clauses. The status clause comes first, with the given status or `"Open"`. The user clause `search_type=user` comes second and only when both keys are present. The priority clause comes last and only when a priority is given. |
| `Jira.BuildUri` | jira/jira.py:27-41 | `_build_uri`: every URI starts with `base + "/rest/api/" + api + "/search?jql=status="`. It is assembled from `SearchPrefix` (the `%s` prefix, where `Show` renders an absent base as `None`), `StatusClause` (with `StatusValue`'s default `Open`), `UserClause` and `PriorityClause`. Its other properties are the lemmas in the rows below, kept out of its contract to keep proofs small. |
| `Jira.BuildUriIsQueryText` | jira/jira.py:27-41 | The built URI equals `base + "/rest/api/" + api + "/search?jql="` followed by the query's clauses joined by `" and "`. |
| `Jira.BuildUriStartsWithStatus` | jira/jira.py:28-34 | Every URI begins with the search prefix and `status=`. That is followed by `Open` when no status is given, and by the given status verbatim otherwise. |
| `Jira.DefaultClientUri` | jira/jira.py:18-29 | A client built with the constructor's defaults has no base URI, which `%s` renders as `None`. So its URIs begin with `None/rest/api/latest/search?jql=status=`. |
| `Jira.StatusOnlyUri` | jira/jira.py:34-41 | With only `status` given, the URI is exactly the prefix plus `status=` plus that status, with no `and` clause. |
| `Jira.StatusDefaultsToOpen` | jira/jira.py:30-34 | Omitting `status` builds the same URI as passing `status="Open"`. |
| `Jira.UserClauseInserted` | jira/jira.py:36-37 | When `user` and `search_type` are both present, the URI gains `" and " + search_type + "=" + user`. The clause sits right after the status clause and before any priority clause. |
| `Jira.UserClauseIffBothKeys` | jira/jira.py:36-37 | Removing `user`, or removing `search_type`, changes the URI iff both were present. If either is missing, nothing is added for them. |
| `Jira.PriorityClauseIffPresent` | jira/jira.py:39-41 | Removing `priority` changes the URI iff it was given. When given, the URI is the one without it plus `" and  priority=" + priority` (two spaces) at the very end. |
| `Jira.BuildUriIgnoresCredentials` | jira/jira.py:27-41 | The URI depends only on the base URI and API version, not on credentials or the TLS flag. |
| `Jira.SearchRequest` | jira/jira.py:69-79 | A search goes to the built URI with the client's TLS flag. It carries cookies iff the credentials are a `BasicAuth`, and then exactly the stored cookies. |
| `Jira.SessionRequest` | jira/jira.py:59-61 | The login request goes to `base + "/rest/auth/latest/session"` with no cookies and the given TLS flag. An absent base URI raises a type error instead. |
| `Jira.LoginBasicAuth` | jira/jira.py:43-67 | An absent base URI fails. Otherwise the returned client carries base URI, API version and TLS flag unchanged. It holds `BasicAuth(response.cookies)` iff the response is `ok`, and no credentials otherwise. |
| `Jira.LoginFailsIffNoSessionRequest` | jira/jira.py:59-67 | The login fails exactly when its session request to `base + "/rest/auth/latest/session"` cannot be formed. So the response the login inspects is the reply to that request. |
| `Jira.LoginThenSearch` | jira/jira.py:62-75 | After a login, every search goes to the URI an unauthenticated client would build. It carries the response's cookies iff the login response was `ok`, and none otherwise. |
| `Jira.CurrentUserUri` | jira/jira.py:81-89 | Searching `user='currentUser()'` in a field gives the URI prefix plus `status=Open and <field>=currentUser()`. |
| `Jira.AssignedToMe` | jira/jira.py:81-84 | `assigned_to_me` requests prefix + `status=Open and assignee=currentUser()`. It sends cookies iff the client holds a `BasicAuth`, and then exactly the stored cookies. It uses the client's TLS flag. |
| `Jira.ReportedByMe` | jira/jira.py:86-89 | `reported_by_me` as written requests prefix + `status=Open and assignee=currentUser()`. It sends the stored cookies iff the client holds a `BasicAuth`, and it uses the client's TLS flag. |
| `Jira.ReportedByMeIsAssignedToMe` | jira/jira.py:81-89 | As written, `reported_by_me` and `assigned_to_me` issue identical requests for every client. |
| `Jira.ReportedByMeIntended` | jira/jira.py:86-89 | The corrected `reported_by_me` requests prefix + `status=Open and reporter=currentUser()`. It sends the stored cookies iff the client holds a `BasicAuth`, and it uses the client's TLS flag. |
| `Jira.ReportedByMeIntendedDiffers` | jira/jira.py:81-89 | The corrected `reported_by_me` never issues the same URI as `assigned_to_me`. |

## Left out

- The HTTP GETs (jira/jira.py:61, 77-79) and the basic-auth header built from `user` and `password` (line 60) are foreign network calls. The login response is a parameter instead, and a search is modelled as the request it would send.
- The JSON decoding of the search reply (line 77) is done by a foreign library, and the remote service defines the reply's schema.
- `verify` is only carried through to the requests. No TLS behaviour is modelled.
- The cookie jar is a name-to-value map that the model never inspects. How the HTTP library computes `response.ok` (a status below 400) is not modelled: `ok` is a given flag.
- Keyword values that are not strings (`status=None`, a number) are out of scope: the source would raise a type error when concatenating them. Keyword arguments other than the four recognised ones are ignored, by the source and by the model alike.
- A non-string `api` is out of scope: `%s` would render it as text.
- The `isinstance` check also accepts subclasses of `BasicAuth`; the source defines none. Any other credentials object is modelled as `Other`.
- No escaping or percent-encoding is applied to filter values, because the source applies none.

The login keeps the cookies whenever `response.ok` holds. The HTTP library
sets that flag for any status below 400, not only for 2xx. The constructor's
base URI defaults to `None`: a search then renders it as the text `None`,
and a login with it fails with a type error before any request is sent.

## Findings

| source | as written | input that shows it | evidently intended | confidence | as-written member | corrected member |
|---|---|---|---|---|---|---|
| jira/jira.py:86-89 | `reported_by_me` searches with `search_type='assignee'`, the same filters as `assigned_to_me` | any client: both requests are identical, e.g. `…/search?jql=status=Open and assignee=currentUser()` | filter on the reporter (`search_type='reporter'`), as its docstring "issues reported by logged user" says | medium (not executed) | `Jira.ReportedByMeIsAssignedToMe` | `Jira.ReportedByMeIntended` |
