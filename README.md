# Strava viewer: OAuth relay, browser auth service and activity view, in Dafny

This project models the logic of a small Strava viewer: a Node relay that keeps the OAuth
client secret server-side, a browser service that runs the authorization-code flow and keeps the
tokens in browser storage, and a React component that draws the last activity's segments.

- `js.dfy` (module `Js`) holds the JavaScript value semantics the code relies on.
  It covers JSON values, `undefined`, truthiness and property reads; reading from `null` or
  `undefined` throws. It also covers `String(v)`, `Number(v)`, `split`/`join`/`map`, an
  insertion-ordered `Set`, and `URLSearchParams` as an ordered list of pairs.
- `relay.dfy` (module `Relay`) models `src/server.js`.
  - The handlers `/api/strava/callback`, `/api/strava/refresh` and `/api/strava/activities/last`
    are pure functions from the request and Strava's replies to the reply and the requests sent.
    They follow the authorization-code grant (section 4.1.3 of RFC 6749) and the refresh grant
    (section 6 of RFC 6749). The client secret travels in the form body (section 2.3.1 of
    RFC 6749), and the bearer token comes from the `Authorization` header (section 2.1 of RFC 6750).
  - The class `Relay` holds the `processedCodes` set as a sequence without repetitions. Its
    `Remember` method adds a code and, once the set holds more than 1000 entries, deletes the 500
    oldest one at a time, as the source does.
- `auth.dfy` (module `StravaAuth`) models `frontend/src/services/stravaAuth.ts`.
  - The class `AuthClient` has three fields: the in-progress flag, the `stravaTokenData`
    local-storage slot and the `processedCode` session-storage slot.
  - `HandleCallback` is proved against the pure step function `Callback`, and the lemmas are
    stated about that function.
  - `Authenticated(stored, now)` is `isAuthenticated` with "now" in milliseconds as a parameter.
- `chart.dfy` (module `ActivityChart`) models `frontend/src/components/ActivityChart.tsx`: the chart
  series, the minutes/seconds split of the moving time, and which render branch is taken.
- `flow.dfy` (module `CodeExchange`) joins the two halves of the code exchange. The browser's
  request body is fed to the relay, and the relay's reply is fed back to the browser.

Strava's replies, the relay's reply to the browser, and the current time are inputs. No network
call, clock or storage API is modelled as an effect.

## Behaviour worth noting

- The relay's routes are `/api/strava/...`.
- A refused exchange is answered with Strava's status and a body
  `{error, details, statusCode}`.
- A failed refresh is always 500.
- The refresh handler does not check that the secret is configured; it sends the text
  `"undefined"` instead.
- The browser service has no token-refresh or expiry-lookahead logic and never deletes the token
  record on a failure.
- A cache hit returns the stored four-field record, not the full reply that the first exchange
  returned.

## Model

| member | source | states |
|---|---|---|
| `Relay.CheckCallback` | src/server.js:36-59 | the code is accepted iff the body yields a string `code` of at least 10 characters and the secret is non-empty, and the accepted code is exactly the body's; every rejection is a 400 or a 500 |
| `Relay.CallbackRejections` | src/server.js:42-59 | the rejections in order: an absent or null body gives 500 "Failed to authenticate with Strava"; a falsy code gives 400 "Authorization code required"; a non-string gives 400 "Invalid authorization code format"; a non-empty code shorter than 10 gives 400 "Authorization code too short"; a missing secret gives 500 "Server configuration error"; none of them sends a request or records a code |
| `Relay.ExchangeFormFields` | src/server.js:71-76 | the token request's fields are `client_id`, `client_secret`, `code`, `grant_type`, `redirect_uri` in that order, with `grant_type=authorization_code`, the code and the secret as given, and `redirect_uri=http://localhost:5173` |
| `Relay.CallbackExchangeRequest` | src/server.js:42-85 | a token request is sent exactly when validation passes, and it is the form for the validated code and the configured secret |
| `Relay.CallbackOutcomes` | src/server.js:87-114 | a success returns Strava's payload verbatim with 200 and is the only outcome that records the code; a refused exchange passes Strava's status on with `error`, `details` (the reply text) and `statusCode`, so a non-2xx refusal stays non-2xx; an exception gives 500 |
| `Relay.AdmitKeepsCap` | src/server.js:100-107 | from a set within 1000 distinct entries, add-then-prune leaves a set within 1000 distinct entries that contains the new code and only old codes, as a suffix of the old order plus the code |
| `Relay.AdmitPrunesOldest` | src/server.js:103-107 | an insert that takes the set to 1001 deletes exactly the 500 oldest entries and leaves 501, the newest last |
| `Relay.AdmitWithoutPrune` | src/server.js:100 | re-adding a present code changes nothing; below the cap a new code is appended |
| `Relay.Relay.constructor` | src/server.js:19 | the set starts empty |
| `Relay.Relay.Remember` | src/server.js:100-107 | the `add` followed by the one-by-one deletion of the 500 oldest keeps the set distinct and within the cap, and yields the add-then-prune result |
| `Relay.Relay.PostCallback` | src/server.js:35-115 | the reply and the request sent are those of the pure handler and do not depend on the set; the set changes only on success, by add-then-prune |
| `Relay.BearerToken` | src/server.js:119-120 | an extracted token is non-empty and contains no space |
| `Relay.BearerTokenExtracted` | src/server.js:119 | for `scheme token` with no space in either part, the token is extracted exactly, also when more words follow; the scheme word is not checked |
| `Relay.BearerTokenMissing` | src/server.js:119-123 | no header, a header without a space, and `scheme ` with an empty token all yield no token |
| `Relay.LastActivityUnauthorized` | src/server.js:119-123 | without a token the reply is 401 "No authorization token provided" and no call is made to Strava |
| `Relay.LastActivityOutcomes` | src/server.js:125-167 | the list call comes first; a failed list gives the fixed 500; an empty list gives 404 "No activities found" after that one call; for a non-empty list whose first entry is an object the detail call is for that entry's `id` with `include_all_efforts=true`, and its payload is passed through with 200 or its failure gives the fixed 500 |
| `Relay.RefreshFormFields` | src/server.js:179-183 | the refresh request's fields are `client_id`, `client_secret` (the text "undefined" when unset), `refresh_token`, `grant_type=refresh_token`, in that order |
| `Relay.RefreshOutcomes` | src/server.js:171-208 | no body, or a missing or falsy `refresh_token`, gives 400 with no request, and only then is no request sent; otherwise the refresh request is sent, a success passes the payload through and every failure gives 500 "Failed to refresh token" |
| `StravaAuth.AuthorizeQueryFields` | frontend/src/services/stravaAuth.ts:11-17 | the authorize query is `client_id`, `redirect_uri`, `response_type=code`, `scope=read,activity:read_all`, `approval_prompt=auto`, in that order |
| `StravaAuth.AuthClient.constructor` | frontend/src/services/stravaAuth.ts:4 | a page load starts with the in-progress flag clear and the two storage slots as they were |
| `StravaAuth.AuthClient.Login` | frontend/src/services/stravaAuth.ts:7-21 | only the marker is removed, the token record and the flag are untouched, and the browser is sent to the authorize endpoint with that query |
| `StravaAuth.TokenRecord` | frontend/src/services/stravaAuth.ts:75-84 | the stored record has no fields but the four token fields, and reads back each of them as the reply had it |
| `StravaAuth.CallbackClearsFlag` | frontend/src/services/stravaAuth.ts:90-93 | the flag is clear after every completion of `handleCallback` |
| `StravaAuth.CallbackWhileInProgress` | frontend/src/services/stravaAuth.ts:26-29 | with the flag set the call returns nothing, sends nothing, writes no storage, and leaves the flag clear |
| `StravaAuth.CallbackCacheHit` | frontend/src/services/stravaAuth.ts:31-39 | a marker equal to the code with a stored record returns that record with no request and no change; a matching marker with nothing stored falls through to an exchange |
| `StravaAuth.CallbackFailureStoresNothing` | frontend/src/services/stravaAuth.ts:62-70 | whenever the call throws, neither storage slot has changed |
| `StravaAuth.CallbackRejected` | frontend/src/services/stravaAuth.ts:62-70 | a non-ok reply with an object body throws its truthy `error` field's text, else "Failed to authenticate with Strava"; a body that does not parse also throws that fixed message; a `null` body throws a TypeError from reading `error`; nothing is stored |
| `StravaAuth.CallbackSuccess` | frontend/src/services/stravaAuth.ts:72-86 | on success the record holds exactly the reply's four token fields, the marker is the code, and the full reply is returned |
| `StravaAuth.SameCodeExchangedOnce` | frontend/src/services/stravaAuth.ts:31-86 | after a successful exchange, a second call with the same code sends no request, changes nothing and returns the stored record |
| `StravaAuth.CallbackAfterLoginExchanges` | frontend/src/services/stravaAuth.ts:31-42 | with no marker (as after `login`) and no exchange in progress, the call always sends the code to the relay |
| `StravaAuth.AuthClient.HandleCallback` | frontend/src/services/stravaAuth.ts:23-94 | the new flag, storage, result and request are those of the step function `Callback` on the old state |
| `StravaAuth.NotAuthenticatedWithoutToken` | frontend/src/services/stravaAuth.ts:96-109 | no record, an empty or unparsable stored text, or a missing or falsy `access_token` means not authenticated at any time |
| `StravaAuth.AuthenticatedUntilExpiry` | frontend/src/services/stravaAuth.ts:103-105 | with a non-empty token and a numeric `expires_at`, authenticated iff `now < expires_at * 1000`, so false at the expiry instant |
| `StravaAuth.AuthenticationExpires` | frontend/src/services/stravaAuth.ts:103-105 | authenticated at a time implies authenticated at every earlier time |
| `StravaAuth.AuthenticatedAfterExchange` | frontend/src/services/stravaAuth.ts:74-105 | after a successful exchange, authenticated iff the reply's `access_token` is truthy and `now` is before its `expires_at` in milliseconds |
| `StravaAuth.AuthClient.Logout` | frontend/src/services/stravaAuth.ts:111-114 | both keys are removed, the flag is untouched, and the client is not authenticated at any time |
| `ActivityChart.Series` | frontend/src/components/ActivityChart.tsx:86-106 | one label and one point per effort: label i is effort i's segment name, the "Elevation Profile" point i its total elevation gain, the "Grade" point i its average grade |
| `ActivityChart.SeriesAppend` | frontend/src/components/ActivityChart.tsx:87-101 | the series of concatenated efforts are the concatenated series, so order is kept and each point depends on its own effort only |
| `ActivityChart.MovingTimeSplit` | frontend/src/components/ActivityChart.tsx:113-115 | for a non-negative moving time, `60 * m + s == t` and `0 <= s < 60`, and that pair is the only one with this property |
| `ActivityChart.MovingTimeNegative` | frontend/src/components/ActivityChart.tsx:114-115 | a negative moving time that is not whole minutes gives a negative seconds part and parts that do not add back up |
| `ActivityChart.Render` | frontend/src/components/ActivityChart.tsx:75-121 | a non-empty error wins; otherwise a missing activity shows loading; otherwise the chart shows the activity's name, its time split, its elevation gain and its series |
| `Js.Split` | src/server.js:119 | `split` never yields an empty list, no piece contains the separator, and joining the pieces gives back the string |
| `Js.SplitJoin` | src/server.js:119 | splitting undoes joining separator-free pieces |
| `Js.ArrayMap` | frontend/src/components/ActivityChart.tsx:87-101 | `map` yields one result per element, element i mapped from element i |
| `Js.SetAdd` | src/server.js:100 | `add` appends an absent value, leaves a present one in place, and keeps the set free of repetitions |
| `Js.SetDelete` | src/server.js:106 | `delete` removes the value, keeps everything else, and keeps the set free of repetitions |
| `Js.Get` | src/server.js:36 | reading a property throws exactly on `null` and `undefined` |
| `Js.OptionalGet` | src/server.js:172 | optional chaining yields `undefined` where a plain read would throw, and the same value otherwise |
| `Js.ParamGetFirst` | src/server.js:71-76 | `get` on search parameters returns the value of the first pair with the key; this is how the form and query lemmas read back the pairs these lines `append` |
| `CodeExchange.RelayReadsBrowserCode` | frontend/src/services/stravaAuth.ts:51-60 | the relay reads back exactly the code in the browser's request body, and accepts it iff it has at least 10 characters and the secret is configured |
| `CodeExchange.ExchangeSucceeds` | src/server.js:97-110 | through both halves, Strava's payload reaches the browser with 200, the relay records the code, and the browser stores the record and marker and is authenticated until `expires_at` |
| `CodeExchange.ExchangeRefused` | frontend/src/services/stravaAuth.ts:62-70 | when Strava refuses the code, the relay passes the status on, and the browser throws "Failed to exchange token with Strava" and stores nothing |

## Left out

- Outbound HTTP (`node-fetch`, the browser's `fetch`): every reply is an input value, and the
  requests that would be sent are outputs.
- Fastify setup, CORS, logging, the health route, `listen` and `process.exit` (server
  plumbing). How Fastify serializes a reply body is not modelled.
- `frontend/src/App.tsx` is not part of this model. It holds React state and effects, and its
  un-awaited `handleCallback()` races `checkAuth()`; that is an interleaving, not a sequential
  contract.
- `frontend/src/services/api.ts` is not part of this model. It reads the key `stravaToken`,
  which the auth service never writes, so no integration between the two is modelled.
- `frontend/src/config/strava.ts` is inlined as constants.
- Concurrency around the in-progress flag: calls are modelled one after another. The flag's
  early-return branch is modelled for a state whose flag is set, but no interleaving that sets it
  is.
- Percent-encoding of the authorize query and of the form bodies: both are ordered key/value
  lists.
- `JSON.stringify`/`JSON.parse` of the stored record: a stored value reads back as the value
  written. Text that does not parse is the explicit `Garbled` case.
- Floating-point numbers: JSON numbers are integers, chart values are reals, and the distance
  formatting `(distance / 1000).toFixed(2)` is left out. The product `expires_at * 1000` is exact,
  with no rounding of large values.
- Js.StringToNumber: only the empty string and optionally signed decimal digits convert. Other
  spellings that JavaScript accepts become NaN in the model: surrounding whitespace, fractions,
  exponents, hex, and `Infinity`.
- Js.Member: arrays and strings expose only `length` and their indices; inherited properties
  are `undefined`.
- String lengths (the 10-character minimum) count Dafny characters, not UTF-16 code units.
- Chart.js registration, options, colours and the JSX markup; the component's fetch effect
  (its result is the `activity`/`error` input of `Render`).
