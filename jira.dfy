/**
 * The issue-tracker client: its configuration, the search URI it builds,
 * the credential decision after the login request and the cookies it
 * attaches to a search. The HTTP transport is not modelled: a login
 * response is a parameter, and a search is modelled as the request it
 * would send.
 */
module Jira {
  import opened Wrappers
  import Jql

  /** The cookie jar returned by the session endpoint, never inspected here. */
  type Cookies = map<string, string>

  /** Holder of the session cookies; its field `cookies` is the read accessor. */
  datatype BasicAuth = BasicAuth(cookies: Cookies)

  /**
   * What the client may hold as credentials: nothing, a `BasicAuth`, or any
   * other object a caller handed to the constructor directly.
   */
  datatype Credentials = NoCredentials | Basic(auth: BasicAuth) | Other

  /**
   * The client's configuration, written once by the constructor. The base
   * URI may be absent (the constructor's default).
   */
  datatype Client = Client(baseUri: Option<string>, api: string, verify: bool, credentials: Credentials)

  /** The optional search keywords; every other keyword is ignored. */
  datatype Filters = Filters(status: Option<string>, user: Option<string>, searchType: Option<string>, priority: Option<string>)

  /** The outcome of the session request, as far as the client looks at it. */
  datatype Response = Response(ok: bool, cookies: Cookies)

  /** A GET request the client issues. */
  datatype Request = Request(uri: string, cookies: Option<Cookies>, verify: bool)

  /** Raised when the login concatenates an absent base URI with a path. */
  datatype LoginError = TypeError

  const DefaultApi: string := "latest"
  const DefaultStatus: string := "Open"
  const SessionPath: string := "/rest/auth/latest/session"

  /** Text a `%s` conversion gives for an optional string: the string, or "None". */
  function Show(s: Option<string>): string
  {
    if s.Some? then s.value else "None"
  }

  /** The constructor: stores its four arguments, with the source's defaults. */
  function NewClient(baseUri: Option<string> := None, api: string := DefaultApi,
                     credentials: Credentials := NoCredentials, verify: bool := true): (r: Client)
    ensures r.baseUri == baseUri && r.api == api
    ensures r.credentials == credentials && r.verify == verify
  {
    Client(baseUri, api, verify, credentials)
  }

  /** The fixed start of every search URI, filled from the base URI and API version. */
  function SearchPrefix(baseUri: Option<string>, api: string): string
  {
    Show(baseUri) + "/rest/api/" + api + "/search?jql="
  }

  /** The status value used: the given one, or "Open" when none is given. */
  function StatusValue(f: Filters): string
  {
    if f.status.Some? then f.status.value else DefaultStatus
  }

  /** The user clause is added only when both `user` and `search_type` are given. */
  predicate HasUserClause(f: Filters)
  {
    f.user.Some? && f.searchType.Some?
  }

  /** `suffix` is the tail of `s`. */
  predicate EndsWith(s: string, suffix: string)
  {
    |suffix| <= |s| && s[|s| - |suffix|..] == suffix
  }

  /** The status clause, always present: "status=" and the status value. */
  function StatusClause(f: Filters): string
  {
    "status=" + StatusValue(f)
  }

  /** " and search_type=user" when both keys are present, else nothing. */
  function UserClause(f: Filters): string
  {
    if HasUserClause(f) then " and " + f.searchType.value + "=" + f.user.value else ""
  }

  /** " and  priority=p" (two spaces) when a priority is present, else nothing. */
  function PriorityClause(f: Filters): string
  {
    if f.priority.Some? then " and  priority=" + f.priority.value else ""
  }

  /**
   * The query the filters denote: the status clause first, then the user
   * clause, then the priority clause, whose field text starts with a space
   * (so that, joined by " and ", it reads " and  priority=").
   */
  function Query(f: Filters): (q: seq<Jql.Clause>)
    ensures |q| == 1 + (if HasUserClause(f) then 1 else 0) + (if f.priority.Some? then 1 else 0)
    ensures q[0] == Jql.Clause("status", if f.status.Some? then f.status.value else DefaultStatus)
    ensures HasUserClause(f) ==> q[1] == Jql.Clause(f.searchType.value, f.user.value)
    ensures f.priority.Some? ==> q[|q| - 1] == Jql.Clause(" priority", f.priority.value)
  {
    var status := [Jql.Clause("status", StatusValue(f))];
    var user := if HasUserClause(f) then [Jql.Clause(f.searchType.value, f.user.value)] else [];
    var priority := if f.priority.Some? then [Jql.Clause(" priority", f.priority.value)] else [];
    status + user + priority
  }

  /** Appending the user clause to a non-empty query appends its text. */
  lemma TextAppendUser(f: Filters, q: seq<Jql.Clause>)
    requires HasUserClause(f) && |q| > 0
    ensures Jql.Text(q + [Jql.Clause(f.searchType.value, f.user.value)]) == Jql.Text(q) + UserClause(f)
  {
    Jql.TextSnoc(q, Jql.Clause(f.searchType.value, f.user.value));
  }

  /** Appending the priority clause to a non-empty query appends its text. */
  lemma TextAppendPriority(f: Filters, q: seq<Jql.Clause>)
    requires f.priority.Some? && |q| > 0
    ensures Jql.Text(q + [Jql.Clause(" priority", f.priority.value)]) == Jql.Text(q) + PriorityClause(f)
  {
    Jql.TextSnoc(q, Jql.Clause(" priority", f.priority.value));
  }

  /** The query text is the status clause, the user clause and the priority clause, in that order. */
  lemma QueryTextIsClauses(f: Filters)
    ensures Jql.Text(Query(f)) == StatusClause(f) + UserClause(f) + PriorityClause(f)
  {
    var status := [Jql.Clause("status", StatusValue(f))];
    Jql.TextSingle(status[0]);
    var withUser := status + if HasUserClause(f) then [Jql.Clause(f.searchType.value, f.user.value)] else [];
    if HasUserClause(f) {
      TextAppendUser(f, status);
    } else {
      assert withUser == status;
    }
    assert Jql.Text(withUser) == StatusClause(f) + UserClause(f);
    var all := withUser + if f.priority.Some? then [Jql.Clause(" priority", f.priority.value)] else [];
    if f.priority.Some? {
      TextAppendPriority(f, withUser);
    } else {
      assert all == withUser;
    }
    assert all == Query(f);
  }

  /**
   * The search URI: the prefix, the status clause, then the user clause when
   * both its keys are present, then the priority clause (whose " and  "
   * carries two spaces). No value is escaped. Its other properties are the
   * lemmas below, kept out of this contract so that every proof mentioning
   * a URI stays small.
   */
  function BuildUri(c: Client, f: Filters): (r: string)
    ensures SearchPrefix(c.baseUri, c.api) + "status=" <= r
  {
    SearchPrefix(c.baseUri, c.api) + StatusClause(f) + UserClause(f) + PriorityClause(f)
  }

  /** The built URI is the search prefix followed by the text of the query the filters denote. */
  lemma BuildUriIsQueryText(c: Client, f: Filters)
    ensures BuildUri(c, f) == SearchPrefix(c.baseUri, c.api) + Jql.Text(Query(f))
  {
    QueryTextIsClauses(f);
  }

  // Rearrangements of concatenations, stated over plain variables so that the
  // proofs below never compare long literal strings character by character.

  lemma EmptyRight(s: string)
    ensures s + "" == s
  {
  }

  lemma Assoc5(a: string, b: string, c: string, d: string, e: string)
    ensures a + (b + c + d + e) == a + b + c + d + e
  {
  }

  lemma Regroup(p: string, a: string, b: string, x: string, c: string, d: string)
    ensures p + a + (b + x + c + d) == p + ((a + b) + x + (c + d))
  {
  }

  /** The URI as its four parts. */
  lemma BuildUriParts(c: Client, f: Filters)
    ensures BuildUri(c, f) == SearchPrefix(c.baseUri, c.api) + StatusClause(f) + UserClause(f) + PriorityClause(f)
  {
  }

  /**
   * Every URI starts with the prefix and "status=", followed by the given
   * status verbatim, or by "Open" when none is given.
   */
  lemma BuildUriStartsWithStatus(c: Client, f: Filters)
    ensures SearchPrefix(c.baseUri, c.api) + "status=" <= BuildUri(c, f)
    ensures f.status.None? ==> SearchPrefix(c.baseUri, c.api) + "status=Open" <= BuildUri(c, f)
    ensures f.status.Some? ==> SearchPrefix(c.baseUri, c.api) + "status=" + f.status.value <= BuildUri(c, f)
  {
    BuildUriParts(c, f);
    var head := SearchPrefix(c.baseUri, c.api) + StatusClause(f);
    assert head <= BuildUri(c, f);
    assert SearchPrefix(c.baseUri, c.api) + "status=" + StatusValue(f) == head;
  }

  /**
   * A client built with the constructor's defaults has no base URI, which
   * the `%s` conversion renders as "None"; its API version is "latest".
   */
  lemma DefaultClientUri(f: Filters)
    ensures "None/rest/api/latest/search?jql=status=" <= BuildUri(NewClient(), f)
  {
    BuildUriStartsWithStatus(NewClient(), f);
    DefaultPrefixText();
  }

  /** The default client's prefix spelled out. */
  lemma DefaultPrefixText()
    ensures SearchPrefix(None, DefaultApi) + "status=" == "None/rest/api/latest/search?jql=status="
  {
  }

  /** With only a status given, the URI is exactly the prefix and that status clause. */
  lemma StatusOnlyUri(c: Client, s: string)
    ensures BuildUri(c, Filters(Some(s), None, None, None)) == SearchPrefix(c.baseUri, c.api) + "status=" + s
  {
    BuildUriParts(c, Filters(Some(s), None, None, None));
  }

  /** Leaving out the status is the same as giving "Open". */
  lemma StatusDefaultsToOpen(c: Client, f: Filters)
    ensures BuildUri(c, f.(status := None)) == BuildUri(c, f.(status := Some(DefaultStatus)))
  {
    BuildUriParts(c, f.(status := None));
    BuildUriParts(c, f.(status := Some(DefaultStatus)));
  }

  /**
   * When `user` and `search_type` are both present, the URI is the one
   * without them with " and search_type=user" inserted after the status
   * clause and before any priority clause.
   */
  lemma UserClauseInserted(c: Client, f: Filters)
    requires HasUserClause(f)
    ensures BuildUri(c, f.(priority := None)) == BuildUri(c, f.(user := None, priority := None)) + " and " + f.searchType.value + "=" + f.user.value
    ensures |BuildUri(c, f)| == |BuildUri(c, f.(user := None))| + |" and " + f.searchType.value + "=" + f.user.value|
    ensures |BuildUri(c, f)| == |BuildUri(c, f.(searchType := None))| + |" and " + f.searchType.value + "=" + f.user.value|
  {
    var prefix, status, user, priority := SearchPrefix(c.baseUri, c.api), StatusClause(f), UserClause(f), PriorityClause(f);
    BuildUriParts(c, f);
    BuildUriParts(c, f.(user := None));
    BuildUriParts(c, f.(searchType := None));
    BuildUriParts(c, f.(priority := None));
    BuildUriParts(c, f.(user := None, priority := None));
    assert BuildUri(c, f.(priority := None)) == prefix + status + user + "";
    assert BuildUri(c, f.(user := None, priority := None)) == prefix + status + "" + "";
    EmptyRight(prefix + status + user);
    EmptyRight(prefix + status);
    EmptyRight(prefix + status + "");
    Assoc5(prefix + status, " and ", f.searchType.value, "=", f.user.value);
  }

  /**
   * Dropping `user` (or `search_type`) changes the URI exactly when both
   * were present: with either missing, nothing is added for them.
   */
  lemma UserClauseIffBothKeys(c: Client, f: Filters)
    ensures BuildUri(c, f) == BuildUri(c, f.(user := None)) <==> !HasUserClause(f)
    ensures BuildUri(c, f) == BuildUri(c, f.(searchType := None)) <==> !HasUserClause(f)
  {
    if HasUserClause(f) {
      UserClauseInserted(c, f);
    } else {
      BuildUriParts(c, f);
      BuildUriParts(c, f.(user := None));
      BuildUriParts(c, f.(searchType := None));
    }
  }

  /**
   * Dropping `priority` changes the URI exactly when it was present; then the
   * dropped clause is " and  priority=p" at the very end.
   */
  lemma PriorityClauseIffPresent(c: Client, f: Filters)
    ensures BuildUri(c, f) == BuildUri(c, f.(priority := None)) <==> f.priority.None?
    ensures f.priority.Some? ==> BuildUri(c, f) == BuildUri(c, f.(priority := None)) + " and  priority=" + f.priority.value
  {
    BuildUriParts(c, f);
    BuildUriParts(c, f.(priority := None));
    if f.priority.Some? {
      assert |BuildUri(c, f)| > |BuildUri(c, f.(priority := None))|;
    }
  }

  /** The URI depends on the base URI and API version only, not on credentials or TLS checking. */
  lemma BuildUriIgnoresCredentials(c1: Client, c2: Client, f: Filters)
    requires c1.baseUri == c2.baseUri && c1.api == c2.api
    ensures BuildUri(c1, f) == BuildUri(c2, f)
  {
  }

  /**
   * A search: the GET request it issues, to the built URI, with the stored
   * cookies when the credentials are a `BasicAuth` and none otherwise, and
   * with the client's TLS flag. Decoding the reply is not modelled.
   */
  function SearchRequest(c: Client, f: Filters): (r: Request)
    ensures r.uri == BuildUri(c, f)
    ensures r.cookies.Some? <==> c.credentials.Basic?
    ensures c.credentials.Basic? ==> r.cookies.value == c.credentials.auth.cookies
    ensures r.verify == c.verify
  {
    var cookies := if c.credentials.Basic? then Some(c.credentials.auth.cookies) else None;
    Request(BuildUri(c, f), cookies, c.verify)
  }

  /** The login request: basic credentials sent to the session endpoint under the base URI. */
  function SessionRequest(baseUri: Option<string>, verify: bool): (r: Result<Request, LoginError>)
    ensures r.Failure? <==> baseUri.None?
    ensures r.Success? ==> baseUri.value <= r.value.uri && EndsWith(r.value.uri, SessionPath)
    ensures r.Success? ==> |r.value.uri| == |baseUri.value| + |SessionPath|
    ensures r.Success? ==> r.value.cookies.None? && r.value.verify == verify
  {
    if baseUri.None? then Failure(TypeError)
    else Success(Request(baseUri.value + SessionPath, None, verify))
  }

  /**
   * The client returned by the login: on a successful response it holds the
   * response's cookies in a `BasicAuth`, otherwise no credentials; base URI,
   * API version and TLS flag are carried through. An absent base URI fails
   * before any request is sent. `response` is the reply to
   * `SessionRequest(baseUri, verify)`.
   */
  function LoginBasicAuth(baseUri: Option<string>, api: string, verify: bool, response: Response): (r: Result<Client, LoginError>)
    ensures r.Failure? <==> baseUri.None?
    ensures r.Success? ==> r.value.baseUri == baseUri && r.value.api == api && r.value.verify == verify
    ensures r.Success? ==> (r.value.credentials.Basic? <==> response.ok)
    ensures r.Success? && response.ok ==> r.value.credentials.auth.cookies == response.cookies
    ensures r.Success? && !response.ok ==> r.value.credentials == NoCredentials
  {
    if baseUri.None? then Failure(TypeError)
    else
      var credentials := if response.ok then Basic(BasicAuth(response.cookies)) else NoCredentials;
      Success(NewClient(baseUri, api, credentials, verify))
  }

  /** The login fails exactly when its session request cannot be formed, so no reply exists then. */
  lemma LoginFailsIffNoSessionRequest(baseUri: Option<string>, api: string, verify: bool, response: Response)
    ensures LoginBasicAuth(baseUri, api, verify, response).Failure? <==> SessionRequest(baseUri, verify).Failure?
    ensures SessionRequest(baseUri, verify).Success? ==>
      SessionRequest(baseUri, verify).value.uri == baseUri.value + SessionPath
  {
  }

  /**
   * Every search of a logged-in client goes to the same URI as one of an
   * unauthenticated client, and carries the login response's cookies exactly
   * when that response was successful.
   */
  lemma LoginThenSearch(base: string, api: string, verify: bool, response: Response, f: Filters)
    ensures LoginBasicAuth(Some(base), api, verify, response).Success?
    ensures var r := SearchRequest(LoginBasicAuth(Some(base), api, verify, response).value, f);
      && r.uri == BuildUri(NewClient(Some(base), api), f)
      && r.cookies == (if response.ok then Some(response.cookies) else None)
      && r.verify == verify
  {
    BuildUriIgnoresCredentials(LoginBasicAuth(Some(base), api, verify, response).value, NewClient(Some(base), api), f);
  }

  /**
   * The URI of a search for the session's own user in field `field`:
   * the default status, then " and field=currentUser()".
   */
  lemma CurrentUserUri(c: Client, field: string)
    ensures BuildUri(c, Filters(None, Some("currentUser()"), Some(field), None))
         == SearchPrefix(c.baseUri, c.api) + ("status=Open and " + field + "=currentUser()")
  {
    var f := Filters(None, Some("currentUser()"), Some(field), None);
    var prefix := SearchPrefix(c.baseUri, c.api);
    BuildUriParts(c, f);
    assert StatusClause(f) == "status=Open";
    assert UserClause(f) == " and " + field + "=" + "currentUser()";
    assert PriorityClause(f) == "";
    EmptyRight(prefix + StatusClause(f) + UserClause(f));
    Regroup(prefix, "status=Open", " and ", field, "=", "currentUser()");
    assert "status=Open" + " and " == "status=Open and ";
    assert "=" + "currentUser()" == "=currentUser()";
  }

  /** The two fixed queries of the convenience searches, spelled out. */
  lemma CurrentUserTextAssignee()
    ensures "status=Open and " + "assignee" + "=currentUser()" == "status=Open and assignee=currentUser()"
  {
  }

  lemma CurrentUserTextReporter()
    ensures "status=Open and " + "reporter" + "=currentUser()" == "status=Open and reporter=currentUser()"
  {
  }

  /** The filters of `assigned_to_me`. */
  const AssignedToMeFilters: Filters := Filters(None, Some("currentUser()"), Some("assignee"), None)

  /** Searches for issues assigned to the session's user. */
  function AssignedToMe(c: Client): (r: Request)
    ensures r.uri == SearchPrefix(c.baseUri, c.api) + "status=Open and assignee=currentUser()"
    ensures r.cookies.Some? <==> c.credentials.Basic?
    ensures c.credentials.Basic? ==> r.cookies.value == c.credentials.auth.cookies
    ensures r.verify == c.verify
  {
    var f := AssignedToMeFilters;
    CurrentUserUri(c, "assignee");
    CurrentUserTextAssignee();
    SearchRequest(c, f)
  }

  /** `reported_by_me` as written: it uses the very filters of `assigned_to_me`. */
  function ReportedByMe(c: Client): (r: Request)
    ensures r.uri == SearchPrefix(c.baseUri, c.api) + "status=Open and assignee=currentUser()"
    ensures r.cookies.Some? <==> c.credentials.Basic?
    ensures c.credentials.Basic? ==> r.cookies.value == c.credentials.auth.cookies
    ensures r.verify == c.verify
  {
    var f := Filters(None, Some("currentUser()"), Some("assignee"), None);
    CurrentUserUri(c, "assignee");
    CurrentUserTextAssignee();
    SearchRequest(c, f)
  }

  /** As written, `reported_by_me` issues the same request as `assigned_to_me`: it never filters by reporter. */
  lemma ReportedByMeIsAssignedToMe(c: Client)
    ensures ReportedByMe(c) == AssignedToMe(c)
  {
  }

  /** `reported_by_me` as its documentation describes it: filter on the reporter. */
  function ReportedByMeIntended(c: Client): (r: Request)
    ensures r.uri == SearchPrefix(c.baseUri, c.api) + "status=Open and reporter=currentUser()"
    ensures r.cookies.Some? <==> c.credentials.Basic?
    ensures c.credentials.Basic? ==> r.cookies.value == c.credentials.auth.cookies
    ensures r.verify == c.verify
  {
    var f := Filters(None, Some("currentUser()"), Some("reporter"), None);
    CurrentUserUri(c, "reporter");
    CurrentUserTextReporter();
    SearchRequest(c, f)
  }

  /** The corrected search differs from `assigned_to_me` for every client. */
  lemma ReportedByMeIntendedDiffers(c: Client)
    ensures ReportedByMeIntended(c).uri != AssignedToMe(c).uri
  {
    var n := |SearchPrefix(c.baseUri, c.api)| + |"status=Open and "|;
    assert ReportedByMeIntended(c).uri[n] == 'r';
    assert AssignedToMe(c).uri[n] == 'a';
  }
}
