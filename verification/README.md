# PowerDealer error handling and navigation, modelled in Dafny

PowerDealer is a small business-account application: a Django REST
Framework backend and a Vue front end. This project models the three parts
of it that make decisions of their own and leaves out the framework
plumbing around them:

- **The backend's error envelope** (`custom_exception_handler`). DRF's default
  handler either produces a response or does not. The handler then
  rewrites the response body into `{success: false, message, errors}`:
  - The message comes from a status table.
  - A string under `detail`, `error` or `message` overrides that message.
  - Every other member of a dict body becomes a field error, and a
    one-element list is unwrapped to its element.
  - A list body becomes `non_field_errors`.
  - With no response at all, the result is a generic 500.
- **The axios client**:
  - `getErrorMessage` and `getFieldErrors` turn a failed request into
    what the user is shown.
  - The request interceptor attaches the bearer token.
  - The response interceptor uses the `_retry` mark so that a 401 leads to
    at most one refresh and retry.
- **The router**: the route table and the `beforeEach` guard that sends
  unauthenticated users to `/login` and authenticated ones away from
  `/login` and `/signup`.

Files:
- `values.dfy`: module `Values`. The JSON-like values both ends exchange. Objects are
  ordered member lists, because Python dicts keep insertion order. The
  client only looks members up by name, so JavaScript's own ordering of
  integer-like keys plays no part. The module also holds item assignment,
  member lookup and JavaScript truthiness.
- `exceptions.dfy`: module `Exceptions`, the handler.
  - `Normalise` specifies what the handler makes of a status and a body.
  - `Reshape` is the handler's loop, proved equal to `Normalise`.
  - `CustomExceptionHandler` replaces the `data` of the `Response` object in
    place, or builds a fresh 500 response.
- `client.dfy`: module `Client`.
  - The two error helpers are functions.
  - The request config is a class: `DecorateRequest` updates its headers and
    `HandleResponseError` sets its `_retry` mark.
  - `RefreshAttempts` replays a sequence of failures of one request to count
    the refresh attempts it causes. The retry `api(originalRequest)` runs on
    a merged copy of the config, and axios copies the request's own
    `_retry` property onto that copy. So the mark carries over to the
    retried request, and the model threads it from one failure to the next.
- `router.dfy`: module `Router`, the route table, route resolution and the guard.
  Routes match as vue-router's default options make them: letter case is
  ignored and one trailing "/" is optional. The guard sees the path as
  requested, with the meta of the record it matched.
- `wire.dfy`: module `Wire`, the client helpers applied to the backend's envelope.

Inputs that the code reads from outside are parameters:
- The status and body DRF's default handler produced.
- The `access_token` and `refresh_token` items from localStorage (None for
  null).
- The axios error object.

## Model

| member | source | states |
|---|---|---|
| Exceptions.CustomExceptionHandler | powerdealer/trading/exceptions.py:19-91 | with a DRF response: the same object is returned, its status is unchanged, and only its body is replaced by the envelope of `Normalise`; without one: a fresh response with status 500 and the generic message with empty errors |
| Exceptions.Reshape | powerdealer/trading/exceptions.py:42-63 | the status-table message and the single pass over a dict body (message keys overwrite the message, other members are assigned to `errors`) compute exactly `Normalise(status, data)` |
| Exceptions.EnvelopeShape | powerdealer/trading/exceptions.py:72-76 | every envelope is an object with exactly the keys success, message and errors, no key twice, `success` false, and the message and errors it was built from |
| Exceptions.DefaultMessageTable | powerdealer/trading/exceptions.py:33-46 | 400, 401, 403, 404, 405 and 500 get their table strings; every other status gets "We couldn't process your request right now." |
| Exceptions.MessageNotOverridden | powerdealer/trading/exceptions.py:43-55 | if no member is a message key holding a string, the message is the status table's; a non-string under a message key changes nothing |
| Exceptions.MessageLastWins | powerdealer/trading/exceptions.py:51-55 | the message is the string of the last member that is a message key holding a string, in iteration order |
| Exceptions.FieldErrorsKeys | powerdealer/trading/exceptions.py:51-61 | the field errors hold every key of the dict body except detail, error and message, and none of those three, each key once |
| Exceptions.FieldErrorsValues | powerdealer/trading/exceptions.py:56-61 | each non-message member reappears under its key; a one-element list is unwrapped and any other value is copied unchanged |
| Exceptions.FieldErrorsInOrder | powerdealer/trading/exceptions.py:49-61 | for a dict (unique keys) the field errors are the non-message members, unwrapped, in the body's order |
| Exceptions.NonDictBodies | powerdealer/trading/exceptions.py:48-63 | a list body gives the table message and `errors` with the single key non_field_errors holding the whole body; any other non-dict body gives empty errors |
| Client.NetworkErrorMessage | powerdealer_f/src/api/client.js:26-30 | an error without a response yields "Server not reachable. Check your connection." whatever else it carries, and empty field errors |
| Client.BackendMessageFirst | powerdealer_f/src/api/client.js:40-42 | a truthy `data.message` is returned verbatim, ahead of the status table |
| Client.StatusTableMessage | powerdealer_f/src/api/client.js:13-44 | without a truthy backend message, statuses 400, 401, 403, 404, 500 and 0 give their table strings, and every other status, 405 included, gives "Something went wrong." |
| Client.ErrorMessageTruthy | powerdealer_f/src/api/client.js:25-45 | the message returned for any error is truthy, so the user always sees something |
| Client.FieldErrorsDefault | powerdealer_f/src/api/client.js:50-52 | the field errors are `response.data.errors` when that is truthy and otherwise an empty object, also when response or data is missing |
| Client.DecorateRequest | powerdealer_f/src/api/client.js:55-61 | `Authorization` becomes "Bearer " + token exactly when a truthy access token is stored; otherwise the headers are unchanged |
| Client.HandleResponseError | powerdealer_f/src/api/client.js:66-92 | the decision and the new `_retry` mark are those of `Decide`; the mark is set before any refresh, and the headers are untouched |
| Client.DecideSpec | powerdealer_f/src/api/client.js:69-74 | a refresh is attempted exactly for a 401 on an unmarked request with a refresh token stored; every other case rejects the original error; the mark is set by every unmarked 401 and never cleared |
| Client.NoRefreshWhenMarked | powerdealer_f/src/api/client.js:69-70 | once a request is marked, no sequence of failures triggers a refresh |
| Client.AtMostOneRefresh | powerdealer_f/src/api/client.js:69-82 | whatever failures one request meets, it is refreshed and retried at most once |
| Router.Find | powerdealer_f/src/router.js:6-31 | the record found for a path is in the table and matches the path, ignoring letter case and one trailing "/" (the `createRouter` defaults); none is found exactly when no record matches |
| Router.MatchesDisjoint | powerdealer_f/src/router.js:6-26 | no path matches two records of the table, so the first match is the record the router picks |
| Router.FindInRoutes | powerdealer_f/src/router.js:6-31 | a path that a record of the table matches resolves to exactly that record |
| Router.RouteTable | powerdealer_f/src/router.js:6-26 | only /dashboard carries requiresAuth, only / has a redirect, and it redirects to /dashboard |
| Router.ResolveRequiresAuth | powerdealer_f/src/router.js:6-31 | for every path, the guard sees requiresAuth exactly when the dashboard record matches the path (any letter case, optional trailing "/") or the path is the root, which resolves to /dashboard |
| Router.ResolveTargets | powerdealer_f/src/router.js:16-25 | the redirect targets /login and /dashboard resolve to themselves, the first without and the second with requiresAuth |
| Router.GuardBranches | powerdealer_f/src/router.js:34-44 | the guard redirects to /login exactly when the target requires auth and no token is stored, redirects to /dashboard exactly for /login or /signup with a token, and proceeds otherwise; one outcome for every input |
| Router.DashboardVariantsGuarded | powerdealer_f/src/router.js:34-38 | without a token, "/dashboard/" and "/Dashboard" are sent to /login like "/dashboard" |
| Router.LoginVariantsNotRedirected | powerdealer_f/src/router.js:39-40 | the guard compares `to.path` exactly, so with a token "/Login" and "/login/" reach the login view and are not sent to /dashboard |
| Router.NoRedirectLoopFrom | powerdealer_f/src/router.js:37-42 | for any location, a redirect the guard issues leads, under the same token state, to a location the guard accepts |
| Router.NoRedirectLoop | powerdealer_f/src/router.js:16-42 | for every requested path, a redirect the guard issues leads, under the same token state, to a location the guard accepts |
| Router.TokenPresenceOnly | powerdealer_f/src/router.js:35 | two stored tokens that are both present, or both absent, lead to the same decision: only presence matters, never the value or expiry |
| Wire.ClientReadsEnvelope | powerdealer_f/src/api/client.js:40-52 | for an envelope from the backend, the client shows its message when non-empty and uses its own status table only for an empty one; the field errors arrive unchanged |
| Wire.ClientReadsUnhandled | powerdealer/trading/exceptions.py:84-89 | for the handler's generic 500 the client shows "Something went wrong. Please try again later." and no field errors |

## Left out

- DRF's `exception_handler` and the exception and context it receives. Its
  result, a status and a body or no response, is the model's input.
- The logging calls (exceptions.py lines 66-69 and 79-82), `console.error`
  and the `import.meta.env.DEV` check. They write output only.
- Python values outside JSON: a DRF `ErrorDetail` is a subclass of `str`,
  so it is modelled as a string. Tuples, floats and other types are not
  modelled.
- JavaScript numbers are integers here. NaN, which is falsy, is not
  modelled.
- Client.HandleResponseError: the refresh POST, the localStorage writes,
  the default-header update, the replay of the request and the redirect to
  /login (client.js lines 73-88) are network and browser I/O. The model
  returns the decision `RefreshAndRetry`, or `Reject` for the original
  error. A failed refresh also ends in rejecting the original error.
- Client.HandleResponseError: an error with a 401 response but no `config`
  would throw a TypeError in the source. Axios always sets `config` when
  there is a response, so the model always has a request config.
- Router: the view components, titles used for display, and vue-router's
  history handling. A path with no record resolves to a location without
  meta, so its `requiresAuth` reads as false.
- Router.Find: paths are taken as already parsed, without query or hash
  and after percent-decoding. Case folding covers ASCII letters only.
  Ranking among records is modelled as the first match, which picks the
  same record here because no path matches two records.
- The backend views, serializers, models, admin and URL wiring, token
  issuance and verification (simplejwt), the Pinia stores and the one-line
  API wrappers. These are framework adapters whose behaviour lives in
  code that is not part of this model.
