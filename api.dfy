/** The client side of the backend API: the query string of the paginated list
    endpoints, the request headers, and the stored authentication token as requests,
    logins and logouts change it. The network is a parameter: each request is given the
    transport's outcome. */
module Api {
  import opened Common
  import opened Toast

  // ---------------------------------------------------------------------------
  // Pagination query

  datatype SortOrder = Asc | Desc

  /** `PaginationParams`: every field optional. */
  datatype PaginationParams = PaginationParams(
    page: Option<int>,
    limit: Option<int>,
    sortBy: Option<string>,
    sortOrder: Option<SortOrder>,
    search: Option<string>,
    status: Option<string>)

  /** One `name=value` entry of a `URLSearchParams`. */
  datatype Param = Param(name: string, value: string)

  const FieldCount := 6

  /** The query fields, in the order they are appended. */
  function FieldName(k: nat): string
    requires k < FieldCount
  {
    ["page", "limit", "sortBy", "sortOrder", "search", "status"][k]
  }

  /** The position of a field name in the append order, `FieldCount` for any other. */
  function FieldIndex(name: string): (k: nat)
    ensures k <= FieldCount
    ensures k < FieldCount ==> FieldName(k) == name
    ensures forall j :: 0 <= j < FieldCount && FieldName(j) == name ==> k == j
  {
    if name == "page" then 0
    else if name == "limit" then 1
    else if name == "sortBy" then 2
    else if name == "sortOrder" then 3
    else if name == "search" then 4
    else if name == "status" then 5
    else FieldCount
  }

  function NumberField(n: Option<int>): (r: Option<string>)
    ensures r.Some? <==> n.Some? && n.value != 0
    ensures r.Some? ==> r.value == IntToString(n.value)
  {
    if n.Some? && n.value != 0 then Some(IntToString(n.value)) else None
  }

  function StringField(s: Option<string>): (r: Option<string>)
    ensures r.Some? <==> Truthy(s)
    ensures r.Some? ==> r == s
  {
    if Truthy(s) then s else None
  }

  function SortOrderText(o: SortOrder): string {
    match o
    case Asc => "asc"
    case Desc => "desc"
  }

  /** The text field `k` contributes, if it is truthy: numbers other than 0, strings
      other than "", and either sort order. */
  function FieldValue(p: PaginationParams, k: nat): Option<string>
    requires k < FieldCount
  {
    if k == 0 then NumberField(p.page)
    else if k == 1 then NumberField(p.limit)
    else if k == 2 then StringField(p.sortBy)
    else if k == 3 then (if p.sortOrder.Some? then Some(SortOrderText(p.sortOrder.value)) else None)
    else if k == 4 then StringField(p.search)
    else StringField(p.status)
  }

  function Emit(p: PaginationParams, k: nat): (r: seq<Param>)
    requires k < FieldCount
    ensures FieldValue(p, k).None? ==> r == []
    ensures FieldValue(p, k).Some? ==> r == [Param(FieldName(k), FieldValue(p, k).value)]
  {
    match FieldValue(p, k)
    case None => []
    case Some(v) => [Param(FieldName(k), v)]
  }

  /** The parameters the first `k` fields contribute. */
  function ParamsUpTo(p: PaginationParams, k: nat): seq<Param>
    requires k <= FieldCount
  {
    if k == 0 then [] else ParamsUpTo(p, k - 1) + Emit(p, k - 1)
  }

  /** The parameters of a list request, in append order. */
  function QueryParams(pagination: Option<PaginationParams>): seq<Param> {
    if pagination.None? then [] else ParamsUpTo(pagination.value, FieldCount)
  }

  predicate InFieldOrder(ps: seq<Param>) {
    forall i, j :: 0 <= i < j < |ps| ==> FieldIndex(ps[i].name) < FieldIndex(ps[j].name)
  }

  lemma {:induction false} ParamsUpToOrdered(p: PaginationParams, k: nat)
    requires k <= FieldCount
    ensures InFieldOrder(ParamsUpTo(p, k))
    ensures forall i :: 0 <= i < |ParamsUpTo(p, k)| ==> FieldIndex(ParamsUpTo(p, k)[i].name) < k
  {
    if k > 0 {
      ParamsUpToOrdered(p, k - 1);
      var prefix := ParamsUpTo(p, k - 1);
      var e := Emit(p, k - 1);
      assert ParamsUpTo(p, k) == prefix + e;
      assert forall i :: 0 <= i < |e| ==> FieldIndex(e[i].name) == k - 1;
    }
  }

  lemma {:induction false} ParamsUpToMembership(p: PaginationParams, k: nat, j: nat, v: string)
    requires k <= FieldCount && j < FieldCount
    ensures Param(FieldName(j), v) in ParamsUpTo(p, k) <==> j < k && FieldValue(p, j) == Some(v)
  {
    if k > 0 {
      ParamsUpToMembership(p, k - 1, j, v);
      assert ParamsUpTo(p, k) == ParamsUpTo(p, k - 1) + Emit(p, k - 1);
      assert FieldIndex(FieldName(j)) == j;
    }
  }

  /** The parameters come in the fixed order page, limit, sortBy, sortOrder, search,
      status, so none appears twice; carry only known field names; and a field appears,
      with its text, exactly when it is truthy. */
  lemma QueryParamsProperties(pagination: Option<PaginationParams>, j: nat, v: string)
    requires j < FieldCount
    ensures InFieldOrder(QueryParams(pagination))
    ensures forall i :: 0 <= i < |QueryParams(pagination)| ==> FieldIndex(QueryParams(pagination)[i].name) < FieldCount
    ensures Param(FieldName(j), v) in QueryParams(pagination) <==>
              pagination.Some? && FieldValue(pagination.value, j) == Some(v)
  {
    if pagination.Some? {
      ParamsUpToOrdered(pagination.value, FieldCount);
      ParamsUpToMembership(pagination.value, FieldCount, j, v);
    }
  }

  /** No pagination, or none of its fields truthy, gives no parameters at all. */
  lemma {:induction false} NoTruthyFieldNoParams(pagination: Option<PaginationParams>)
    ensures QueryParams(pagination) == [] <==>
              pagination.None? || forall k :: 0 <= k < FieldCount ==> FieldValue(pagination.value, k).None?
  {
    if pagination.Some? {
      var p := pagination.value;
      forall k | 0 <= k < FieldCount
        ensures QueryParams(pagination) == [] ==> FieldValue(p, k).None?
      {
        if FieldValue(p, k).Some? {
          ParamsUpToMembership(p, FieldCount, k, FieldValue(p, k).value);
        }
      }
      if forall k :: 0 <= k < FieldCount ==> FieldValue(p, k).None? {
        EmptyUpTo(p, FieldCount);
      }
    }
  }

  lemma {:induction false} EmptyUpTo(p: PaginationParams, k: nat)
    requires k <= FieldCount
    requires forall j :: 0 <= j < k ==> FieldValue(p, j).None?
    ensures ParamsUpTo(p, k) == []
  {
    if k > 0 {
      EmptyUpTo(p, k - 1);
    }
  }

  /** The query-building code of `getAllUsers`, `getCourses` and `getBatches`: each
      truthy field is appended in turn. */
  method BuildParams(pagination: Option<PaginationParams>) returns (params: seq<Param>)
    ensures params == QueryParams(pagination)
  {
    params := [];
    if pagination.Some? {
      var p := pagination.value;
      if p.page.Some? && p.page.value != 0 {
        params := params + [Param("page", IntToString(p.page.value))];
      }
      assert params == ParamsUpTo(p, 1);
      if p.limit.Some? && p.limit.value != 0 {
        params := params + [Param("limit", IntToString(p.limit.value))];
      }
      assert params == ParamsUpTo(p, 2);
      if Truthy(p.sortBy) {
        params := params + [Param("sortBy", p.sortBy.value)];
      }
      assert params == ParamsUpTo(p, 3);
      if p.sortOrder.Some? {
        params := params + [Param("sortOrder", SortOrderText(p.sortOrder.value))];
      }
      assert params == ParamsUpTo(p, 4);
      if Truthy(p.search) {
        params := params + [Param("search", p.search.value)];
      }
      assert params == ParamsUpTo(p, 5);
      if Truthy(p.status) {
        params := params + [Param("status", p.status.value)];
      }
      assert params == ParamsUpTo(p, 6);
    }
  }

  /** One `name=value` entry of a query string. */
  function Entry(p: Param): (r: string)
    ensures |r| > |p.name| && r[|p.name|] == '='
  {
    p.name + "=" + p.value
  }

  /** `params.toString()`, without the form encoding of names and values: the entries
      in order, separated by '&' (see SerializeAppend). */
  function Serialize(ps: seq<Param>): (r: string)
    ensures r == "" <==> ps == []
    ensures |ps| == 1 ==> r == Entry(ps[0])
  {
    if ps == [] then ""
    else if |ps| == 1 then Entry(ps[0])
    else Entry(ps[0]) + "&" + Serialize(ps[1..])
  }

  /** Joining two nonempty parameter lists joins their query strings with one '&', so
      the query string of `[p1, ..., pn]` is `p1.name=p1.value&...&pn.name=pn.value`. */
  lemma {:induction false} SerializeAppend(a: seq<Param>, b: seq<Param>)
    requires a != [] && b != []
    ensures Serialize(a + b) == Serialize(a) + "&" + Serialize(b)
  {
    assert (a + b)[0] == a[0];
    if |a| == 1 {
      assert (a + b)[1..] == b;
    } else {
      assert (a + b)[1..] == a[1..] + b;
      SerializeAppend(a[1..], b);
    }
  }

  /** The endpoint of a list request on `base`. */
  function Endpoint(base: string, pagination: Option<PaginationParams>): (r: string)
    ensures QueryParams(pagination) == [] ==> r == base
    ensures QueryParams(pagination) != [] ==> r == base + "?" + Serialize(QueryParams(pagination))
  {
    var query := Serialize(QueryParams(pagination));
    if query != "" then base + "?" + query else base
  }

  const UserList := "/user/list"
  const CourseList := "/course/list"
  const BatchList := "/batch/list"

  /** For a base without a '?', the endpoint carries one exactly when some field of the
      pagination is truthy; the three list requests share this builder. */
  lemma EndpointQuestionMark(base: string, pagination: Option<PaginationParams>)
    requires '?' !in base
    ensures '?' in Endpoint(base, pagination) <==> QueryParams(pagination) != []
    ensures '?' !in Endpoint(UserList, None) && '?' !in Endpoint(CourseList, None) && '?' !in Endpoint(BatchList, None)
  {
    if QueryParams(pagination) != [] {
      assert (base + "?" + Serialize(QueryParams(pagination)))[|base|] == '?';
    }
  }

  // ---------------------------------------------------------------------------
  // Headers

  /** `defaultHeaders`: the content type, and the bearer token when one is stored. */
  function DefaultHeaders(token: Option<string>): (h: map<string, string>)
    ensures "Content-Type" in h && h["Content-Type"] == "application/json"
    ensures "Authorization" in h <==> Truthy(token)
    ensures "Authorization" in h ==> h["Authorization"] == "Bearer " + token.value
    ensures h.Keys <= {"Content-Type", "Authorization"}
  {
    var base := map["Content-Type" := "application/json"];
    if Truthy(token) then base["Authorization" := "Bearer " + token.value] else base
  }

  /** The headers sent: the defaults, each overridden by a caller-supplied header of the
      same name. */
  function RequestHeaders(token: Option<string>, callerHeaders: map<string, string>): (h: map<string, string>)
    ensures forall k :: k in callerHeaders ==> k in h && h[k] == callerHeaders[k]
    ensures forall k :: k !in callerHeaders && k in DefaultHeaders(token) ==> k in h && h[k] == DefaultHeaders(token)[k]
    ensures h.Keys == DefaultHeaders(token).Keys + callerHeaders.Keys
  {
    DefaultHeaders(token) + callerHeaders
  }

  /** Without a caller-supplied `Authorization`, the bearer header is sent exactly when a
      token is stored. */
  lemma AuthorizationHeader(token: Option<string>, callerHeaders: map<string, string>)
    requires "Authorization" !in callerHeaders
    ensures "Authorization" in RequestHeaders(token, callerHeaders) <==> Truthy(token)
    ensures Truthy(token) ==> RequestHeaders(token, callerHeaders)["Authorization"] == "Bearer " + token.value
  {
  }

  // ---------------------------------------------------------------------------
  // Requests and the stored token

  /** The decoded body of a reply. */
  datatype ApiResponse = ApiResponse(success: bool, message: string, token: Option<string>)

  /** What the transport did with a request. */
  datatype Transport =
    | Responded(ok: bool, status: int, body: ApiResponse)
    | TransportFailed(reason: string)

  datatype Outcome = Replied(response: ApiResponse) | Threw(error: ApiError)

  function StatusMessage(status: int): string {
    "HTTP error! status: " + IntToString(status)
  }

  predicate IsUnauthorized(status: int) { status == 401 || status == 403 }

  /** The error `request` throws for a non-ok status, as written: a plain `Error`. */
  function RequestErrorAsWritten(status: int): (e: ApiError)
    ensures e == ThrownError(StatusMessage(status))
  {
    ThrownError(StatusMessage(status))
  }

  /** As written, a 401 reply is not recognised as an authentication error by
      `handleApiError`: the user is shown the raw status text instead of the request to
      log in again. */
  lemma UnauthorizedNotRecognised(defaultMessage: string)
    ensures !IsAuthError(RequestErrorAsWritten(401))
    ensures ApiErrorMessage(RequestErrorAsWritten(401), defaultMessage) == "HTTP error! status: 401"
    ensures ApiErrorMessage(RequestErrorAsWritten(401), defaultMessage) != AuthMessage
  {
    assert IntToString(401) == "401";
  }

  /** The error a non-ok status raises, carrying its status as `handleApiError` expects. */
  function RequestError(status: int): (e: ApiError)
    ensures e.status == Some(status) && e.message == Some(StatusMessage(status))
    ensures IsAuthError(e) <==> IsUnauthorized(status)
  {
    ApiError(IsUnauthorized(status), Some(status), None, Some(StatusMessage(status)))
  }

  /** With the status attached, a 401 or 403 reply is toasted as an authentication
      error and no load-failure banner is set; any other failed status shows its text. */
  lemma RequestErrorReported(status: int, defaultMessage: string, banner: string)
    ensures IsUnauthorized(status) ==> ApiErrorMessage(RequestError(status), defaultMessage) == AuthMessage
    ensures IsUnauthorized(status) ==> FailureBanner(RequestError(status), banner).None?
    ensures !IsUnauthorized(status) ==> ApiErrorMessage(RequestError(status), defaultMessage) == StatusMessage(status)
  {
    assert StatusMessage(status)[0] == 'H';
  }

  /** The outcome of `request` as written: a non-ok reply throws the plain status
      error. */
  function RequestOutcomeAsWritten(t: Transport): (r: Outcome)
    ensures r.Replied? <==> t.Responded? && t.ok
    ensures r.Replied? ==> r.response == t.body
    ensures t.Responded? && !t.ok ==> r == Threw(RequestErrorAsWritten(t.status))
    ensures t.TransportFailed? ==> r == Threw(ThrownError(t.reason))
  {
    match t
    case Responded(ok, status, body) => if ok then Replied(body) else Threw(RequestErrorAsWritten(status))
    case TransportFailed(reason) => Threw(ThrownError(reason))
  }

  /** The outcome of `request` with the corrected error, which carries its status. */
  function RequestOutcome(t: Transport): (r: Outcome)
    ensures r.Replied? <==> t.Responded? && t.ok
    ensures r.Replied? ==> r.response == t.body
    ensures t.Responded? && !t.ok ==> r == Threw(RequestError(t.status))
    ensures t.TransportFailed? ==> r == Threw(ThrownError(t.reason))
  {
    match t
    case Responded(ok, status, body) => if ok then Replied(body) else Threw(RequestError(status))
    case TransportFailed(reason) => Threw(ThrownError(reason))
  }

  /** The correction changes nothing but the error of a non-ok reply, which keeps its
      text, and it changes the toast only for 401 and 403. */
  lemma CorrectionOnlyAddsStatus(t: Transport, defaultMessage: string)
    ensures !(t.Responded? && !t.ok) ==> RequestOutcome(t) == RequestOutcomeAsWritten(t)
    ensures t.Responded? && !t.ok ==>
              RequestOutcome(t).Threw? && RequestOutcomeAsWritten(t).Threw? &&
              RequestOutcome(t).error.message == RequestOutcomeAsWritten(t).error.message
    ensures t.Responded? && !t.ok && !IsUnauthorized(t.status) ==>
              ApiErrorMessage(RequestOutcome(t).error, defaultMessage) ==
              ApiErrorMessage(RequestOutcomeAsWritten(t).error, defaultMessage)
  {
    if t.Responded? && !t.ok {
      RequestErrorReported(t.status, defaultMessage, "");
      assert StatusMessage(t.status)[0] == 'H';
      ThrownErrorReported(StatusMessage(t.status), defaultMessage, "", RequestErrorAsWritten(t.status));
    }
  }

  /** The stored token after a request: removed by a 401 or 403 reply, kept otherwise. */
  function TokenAfterRequest(token: Option<string>, t: Transport): (r: Option<string>)
    ensures t.Responded? && !t.ok && IsUnauthorized(t.status) ==> r.None?
    ensures !(t.Responded? && !t.ok && IsUnauthorized(t.status)) ==> r == token
  {
    if t.Responded? && !t.ok && IsUnauthorized(t.status) then None else token
  }

  /** The stored token after `login`: the reply's token when the login succeeded and
      carried one, otherwise whatever the request left. */
  function TokenAfterLogin(token: Option<string>, t: Transport): (r: Option<string>)
    ensures RequestOutcome(t).Replied? && RequestOutcome(t).response.success && Truthy(RequestOutcome(t).response.token) ==>
              r == RequestOutcome(t).response.token
    ensures !(RequestOutcome(t).Replied? && RequestOutcome(t).response.success && Truthy(RequestOutcome(t).response.token)) ==>
              r == TokenAfterRequest(token, t)
  {
    var outcome := RequestOutcome(t);
    if outcome.Replied? && outcome.response.success && Truthy(outcome.response.token)
    then outcome.response.token
    else TokenAfterRequest(token, t)
  }

  /** A failed login never stores a token it did not already have, and a successful one
      without a token leaves the stored one alone. */
  lemma LoginStoresOnlyOnSuccess(token: Option<string>, t: Transport)
    ensures TokenAfterLogin(token, t) != token ==>
              TokenAfterLogin(token, t).None? || (t.Responded? && t.ok && t.body.success && Truthy(t.body.token))
    ensures t.Responded? && t.ok && !t.body.success ==> TokenAfterLogin(token, t) == token
  {
  }

  /** The client and the token it keeps in local storage. */
  class ApiClient {
    var storedToken: Option<string>
    var sentHeaders: seq<map<string, string>>

    constructor (token: Option<string>)
      ensures storedToken == token && sentHeaders == []
    {
      storedToken := token;
      sentHeaders := [];
    }

    /** `request`: sends the headers built from the stored token, then reads the
        reply; a non-ok reply throws, after removing the token for 401 and 403. */
    method Request(callerHeaders: map<string, string>, t: Transport) returns (r: Outcome)
      modifies this
      ensures r == RequestOutcome(t)
      ensures sentHeaders == old(sentHeaders) + [RequestHeaders(old(storedToken), callerHeaders)]
      ensures storedToken == TokenAfterRequest(old(storedToken), t)
    {
      var headers := DefaultHeaders(storedToken) + callerHeaders;
      sentHeaders := sentHeaders + [headers];
      match t {
        case TransportFailed(reason) =>
          r := Threw(ThrownError(reason));
        case Responded(ok, status, body) =>
          if !ok {
            if status == 401 || status == 403 {
              storedToken := None;
            }
            r := Threw(RequestError(status));
          } else {
            r := Replied(body);
          }
      }
    }

    /** `login`: the request, then the token stored on a successful reply that has one. */
    method Login(t: Transport) returns (r: Outcome)
      modifies this
      ensures r == RequestOutcome(t)
      ensures storedToken == TokenAfterLogin(old(storedToken), t)
      ensures sentHeaders == old(sentHeaders) + [RequestHeaders(old(storedToken), map[])]
    {
      r := Request(map[], t);
      if r.Replied? && r.response.success && Truthy(r.response.token) {
        storedToken := r.response.token;
      }
    }

    /** `logout`: the stored token is removed. */
    method Logout()
      modifies this
      ensures storedToken.None? && sentHeaders == old(sentHeaders)
    {
      storedToken := None;
    }
  }
}
