/**
  The axios client of the Vue front end: turning a failed request into a
  message and field errors for the user, attaching the stored access token
  to outgoing requests, and deciding whether a 401 is answered by one
  token refresh and retry. localStorage reads are parameters; the refresh
  call itself, the storage writes and the redirect to the login page are
  not modelled.
 */
module Client {
  import opened Values

  const NetworkMessage := "Server not reachable. Check your connection."
  const GenericMessage := "Something went wrong."

  /** `statusMessages`; note the entry for 0, the status of an unreachable server. */
  const StatusMessages: map<int, string> := map[
    400 := "Please check your input.",
    401 := "Login required.",
    403 := "You don't have permission.",
    404 := "Not found.",
    500 := "Server problem. Try later.",
    0 := NetworkMessage
  ]

  /** The part of an axios response the helpers look at; `data` is None when undefined. */
  datatype HttpResponse = HttpResponse(status: int, data: Option<Value>)

  /** An axios error; `response` is None for a network error. */
  datatype AxiosError = AxiosError(response: Option<HttpResponse>)

  /** `x?.key`: undefined unless `x` is an object holding `key`. */
  function Member(x: Option<Value>, key: string): Option<Value>
  {
    if x.Some? && x.value.Obj? then Get(x.value.members, key) else None
  }

  /** `a || b` where `a` may be undefined. */
  function Or(a: Option<Value>, b: Value): Value
  {
    if Defined(a) then a.value else b
  }

  /** `statusMessages[status]` */
  function StatusEntry(status: int): Option<Value>
  {
    if status in StatusMessages then Some(Str(StatusMessages[status])) else None
  }

  /** `getErrorMessage`: the network message, else a truthy backend `message`, else the status table. */
  function GetErrorMessage(error: AxiosError): Value
  {
    if error.response.None? then Str(StatusMessages[0])
    else
      var message := Member(error.response.value.data, "message");
      if Defined(message) then message.value
      else Or(StatusEntry(error.response.value.status), Str(GenericMessage))
  }

  /** `getFieldErrors`: `error.response?.data?.errors || {}` */
  function GetFieldErrors(error: AxiosError): Value
  {
    var data := if error.response.Some? then error.response.value.data else None;
    Or(Member(data, "errors"), Obj([]))
  }

  /** A request's config object: its headers and the `_retry` mark (undefined reads as false). */
  class RequestConfig {
    var headers: map<string, string>
    var retry: bool

    constructor (headers: map<string, string>)
      ensures this.headers == headers && !retry
    {
      this.headers := headers;
      this.retry := false;
    }
  }

  /** The request interceptor: sets the bearer header when an access token is stored, else leaves the headers alone. */
  method DecorateRequest(config: RequestConfig, storedAccess: Option<string>) returns (r: RequestConfig)
    modifies config
    ensures r == config && config.retry == old(config.retry)
    ensures Stored(storedAccess) ==> config.headers == old(config.headers)["Authorization" := "Bearer " + storedAccess.value]
    ensures !Stored(storedAccess) ==> config.headers == old(config.headers)
  {
    if Stored(storedAccess) {
      config.headers := config.headers["Authorization" := "Bearer " + storedAccess.value];
    }
    r := config;
  }

  /**
    What the response interceptor does with a failed request: reject the
    original error, or refresh with the stored refresh token and then retry
    the same request (rejecting the original error if the refresh fails).
   */
  datatype Decision = Reject | RefreshAndRetry(refreshToken: string)

  function StatusOf(error: AxiosError): Option<int>
  {
    if error.response.Some? then Some(error.response.value.status) else None
  }

  /**
    The interceptor's decision and the request's `_retry` mark afterwards,
    given the failure's status, the mark before, and the stored refresh token.
   */
  function Decide(status: Option<int>, retried: bool, storedRefresh: Option<string>): (Decision, bool)
  {
    if status == Some(401) && !retried then
      (if Stored(storedRefresh) then RefreshAndRetry(storedRefresh.value) else Reject, true)
    else (Reject, retried)
  }

  /** The response interceptor's error path: marks the request before any refresh attempt. */
  method HandleResponseError(error: AxiosError, originalRequest: RequestConfig, storedRefresh: Option<string>)
    returns (d: Decision)
    modifies originalRequest
    ensures (d, originalRequest.retry) == Decide(StatusOf(error), old(originalRequest.retry), storedRefresh)
    ensures originalRequest.headers == old(originalRequest.headers)
  {
    d := Reject;
    if error.response.Some? && error.response.value.status == 401 && !originalRequest.retry {
      originalRequest.retry := true;
      if storedRefresh.Some? && storedRefresh.value != "" {
        d := RefreshAndRetry(storedRefresh.value);
      }
    }
  }

  /**
    The number of refresh attempts made for one request config that meets
    the failures in `failures` (each a status and the refresh token stored
    at that moment), starting with the `_retry` mark `retried`. The retry
    runs on a merged copy of the config that axios gives the request's own
    `_retry` property, so the mark carries over from one failure to the next.
   */
  function RefreshAttempts(failures: seq<(Option<int>, Option<string>)>, retried: bool): nat
    decreases |failures|
  {
    if failures == [] then 0
    else
      var (d, after) := Decide(failures[0].0, retried, failures[0].1);
      (if d.RefreshAndRetry? then 1 else 0) + RefreshAttempts(failures[1..], after)
  }

  /** A refresh is attempted exactly for an unmarked 401 with a refresh token stored; the mark is set by every unmarked 401 and never cleared. */
  lemma DecideSpec(status: Option<int>, retried: bool, storedRefresh: Option<string>)
    ensures Decide(status, retried, storedRefresh).0.RefreshAndRetry?
      <==> status == Some(401) && !retried && Stored(storedRefresh)
    ensures Decide(status, retried, storedRefresh).1 <==> retried || status == Some(401)
  {
  }

  /** Once a request is marked, no failure of it triggers a refresh. */
  lemma {:induction false} NoRefreshWhenMarked(failures: seq<(Option<int>, Option<string>)>)
    ensures RefreshAttempts(failures, true) == 0
    decreases |failures|
  {
    if failures != [] {
      NoRefreshWhenMarked(failures[1..]);
    }
  }

  /** Each request is refreshed and retried at most once, whatever failures it meets. */
  lemma {:induction false} AtMostOneRefresh(failures: seq<(Option<int>, Option<string>)>, retried: bool)
    ensures RefreshAttempts(failures, retried) <= 1
    ensures retried ==> RefreshAttempts(failures, retried) == 0
  {
    if failures != [] {
      var (d, after) := Decide(failures[0].0, retried, failures[0].1);
      if after {
        NoRefreshWhenMarked(failures[1..]);
      } else {
        AtMostOneRefresh(failures[1..], after);
      }
    }
  }

  /** An error without a response always yields the network message, whatever it carries. */
  lemma NetworkErrorMessage(error: AxiosError)
    requires error.response.None?
    ensures GetErrorMessage(error) == Str(NetworkMessage)
    ensures GetFieldErrors(error) == Obj([])
  {
  }

  /** A truthy backend `message` is returned verbatim, ahead of the status table. */
  lemma BackendMessageFirst(status: int, data: Option<Value>)
    requires Defined(Member(data, "message"))
    ensures GetErrorMessage(AxiosError(Some(HttpResponse(status, data)))) == Member(data, "message").value
  {
  }

  /** Otherwise the status table decides: five statuses and 0 have entries, every other status (405 among them) the generic message. */
  lemma StatusTableMessage(status: int, data: Option<Value>)
    requires !Defined(Member(data, "message"))
    ensures var m := GetErrorMessage(AxiosError(Some(HttpResponse(status, data))));
      && (status == 400 ==> m == Str("Please check your input."))
      && (status == 401 ==> m == Str("Login required."))
      && (status == 403 ==> m == Str("You don't have permission."))
      && (status == 404 ==> m == Str("Not found."))
      && (status == 500 ==> m == Str("Server problem. Try later."))
      && (status == 0 ==> m == Str(NetworkMessage))
      && (status !in {0, 400, 401, 403, 404, 500} ==> m == Str(GenericMessage))
  {
  }

  /** The user is always shown something: the message is truthy. */
  lemma ErrorMessageTruthy(error: AxiosError)
    ensures Truthy(GetErrorMessage(error))
  {
  }

  /** The field errors are the backend's `errors` when truthy, else an empty object; never undefined. */
  lemma FieldErrorsDefault(error: AxiosError)
    ensures var data := if error.response.Some? then error.response.value.data else None;
      GetFieldErrors(error) == if Defined(Member(data, "errors")) then Member(data, "errors").value else Obj([])
    ensures Truthy(GetFieldErrors(error))
  {
  }
}
