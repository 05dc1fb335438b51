# Cognito token cache for Postman hooks — a Dafny model

The repository is four Postman hook scripts that share one piece of state: a
single-slot identity-token cache kept in Postman's global store under the keys
`id_token`, `id_token_created_at` and `get_token_request`.

- `scripts/getToken.postresponse.js` runs after the hosted-login request. It saves
  the request descriptor, cuts the ID token out of the redirect `Location` header
  by position, and stores the token with the current time.
- `scripts/sendPayment.prerequest.js` runs before a protected request. When the
  token is missing or more than an hour old, it fires a refresh request (the
  stored descriptor, or `{}`) without waiting for it. The refresh callback stores
  the token extracted from the new redirect.
- `InitiateAuth/scripts/getTokenInitiateAuth.postresponse.js` stores
  `AuthenticationResult.IdToken` from an InitiateAuth response body.
- `InitiateAuth/scripts/sendPaymentInitiateAuth.prerequest.js` only classifies the
  cached token as missing, expired or valid.

The model has five modules:

- `Wrappers` (`Wrappers.dfy`): the `Option` type.
- `JsString` (`JsString.dfy`): `String.prototype.indexOf` and
  `String.prototype.substring`, following section 22.1.3 of ECMA-262. `indexOf`
  gives -1 when the text is absent; `substring` clamps both positions to
  [0, length] and swaps them when needed. Positions count characters, not
  UTF-16 code units (see "## Left out").
- `Extraction` (`Extraction.dfy`): the positional token extraction
  `header.substring(header.indexOf('id_token=') + 9, header.indexOf('&access_token'))`.
  It is not a keyed fragment lookup.
- `Expiry` (`Expiry.dfy`): the one-hour rule `ageInMs > 60 * 60 * 1000`. Ages are
  whole milliseconds; a missing or invalid timestamp has a NaN age. Also the
  three-way classification shared by both pre-request scripts.
- `TokenCache` (`TokenCache.dfy`): the class `TokenStore` holding the three
  globals. Each hook is a method on it. A request a hook sends is an `Action`
  value it returns. The asynchronous callback of a refresh is a separate method,
  `RefreshCallback`, that the host calls later with `(err, location, now)`.

Representation choices:

- A falsy or absent `id_token` is `""`.
- `id_token_created_at` is `Option<int>` milliseconds; `None` stands for an
  absent or unparsable value.
- `get_token_request` is `Option<string>`, treated as opaque text.
- The current time is a parameter `now` of each hook.

On these points the model follows the code, whose behaviour a reader may not expect:

- Only a falsy token triggers the cold-start path. The test `!createdAt` is
  applied to a `Date` object, which is always truthy. A token with no timestamp
  therefore has NaN age and counts as valid.
- Expiry is strict (`>`): a token exactly one hour old is still valid.
- The hosted-login hook saves the request descriptor on every run, before any
  check. The descriptor is stored even when the hook then stops without writing
  a token.
- The refresh callbacks store the extracted token even when it is `""`. Both
  post-response hooks refuse an empty token; the refresh callbacks do not.
- The expired-path callback does not check for a missing `Location` header. It
  throws before writing anything. An empty `Location` value is not guarded
  either, and it stores `""`.

## Model

| member | source | states |
|---|---|---|
| JsString.IndexOfFrom | scripts/getToken.postresponse.js:22-23 | the search from a position returns -1 exactly when the marker does not occur from there on; otherwise it returns the first position from there at which the marker occurs |
| JsString.IndexOf | scripts/getToken.postresponse.js:22-23 | `indexOf` is -1 iff the marker does not occur; otherwise it is the first occurrence |
| JsString.IndexOfIsFirst | scripts/getToken.postresponse.js:22-23 | any first occurrence of the marker is the value `indexOf` returns |
| JsString.Substring | scripts/getToken.postresponse.js:21-24 | `substring` returns a contiguous slice of the string; with in-range positions it is the slice between them in either order; its length is the distance between the clamped positions |
| JsString.SubstringSymmetric | scripts/getToken.postresponse.js:21-24 | swapping the two positions does not change the result |
| JsString.SubstringClamps | scripts/getToken.postresponse.js:21-24 | positions below zero act as zero and positions past the end act as the length |
| Extraction.Extract | scripts/getToken.postresponse.js:21-24 | the extracted token is always a contiguous slice of the header, never longer than it |
| Extraction.ExtractBetweenMarkers | scripts/getToken.postresponse.js:21-24 | with the first `id_token=` at i, the first `&access_token` at j and i+9 <= j, the token is exactly header[i+9..j] |
| Extraction.ExtractSwapsWhenReordered | scripts/getToken.postresponse.js:21-24 | when `&access_token` comes first (j < i+9), the positions are swapped and the result is header[j..i+9], not a token |
| Extraction.ExtractWithoutAccessTokenMarker | scripts/getToken.postresponse.js:22-23 | without `&access_token` the end position -1 clamps to 0, so the result is the header prefix ending 9 past `id_token=` (or at 8 when that is absent), cut at the header length |
| Extraction.ExtractWithoutIdTokenMarker | scripts/getToken.postresponse.js:21-24 | without `id_token=` the start position is 8: the result is header[8..j] when `&access_token` first occurs at j >= 8, header[j..min(8, length)] when it first occurs at j < 8 (the positions are swapped), and header[..8] when it is absent |
| Extraction.ExtractOfEmpty | scripts/sendPayment.prerequest.js:49-54 | an empty `Location` value extracts "", which the expired-path callback then stores |
| Extraction.ExtractWellFormed | scripts/getToken.postresponse.js:21-24 | for a header prefix + `id_token=` + token + `&access_token` + rest in which these are the first `id_token=` and the first `&access_token`, exactly the token is extracted |
| Extraction.ExtractExample | scripts/getToken.postresponse.js:21-24 | `.../cb#id_token=ABC123&access_token=XYZ` extracts `ABC123` |
| Extraction.ExtractReordered | scripts/getToken.postresponse.js:21-24 | for a header prefix + `&access_token` + middle + `id_token=` + rest in which these are the first `&access_token` and the first `id_token=`, the result is the text from `&access_token` through `id_token=`, never the token |
| Extraction.ExtractReorderedExample | scripts/getToken.postresponse.js:21-24 | `#state=S&access_token=XYZ&id_token=ABC` extracts `&access_token=XYZ&id_token=`: the extraction is positional, not keyed |
| Expiry.Expired | scripts/sendPayment.prerequest.js:38-40 | a token is expired iff its timestamp is present and more than one hour (3600000 ms) before now |
| Expiry.ExpiredIsMonotone | scripts/sendPayment.prerequest.js:38-40 | a token expired at one time is expired at every later time |
| Expiry.BoundaryIsValid | scripts/sendPayment.prerequest.js:38-40 | an age of exactly one hour, or a negative age, is not expired |
| Expiry.MissingTimestampNeverExpires | scripts/sendPayment.prerequest.js:10-40 | an absent timestamp gives a NaN age, and NaN > 3600000 is false, so the token is not expired |
| Expiry.Classify | InitiateAuth/scripts/sendPaymentInitiateAuth.prerequest.js:9-26 | "no token" iff the token is falsy; "expired" iff it is present and older than one hour; "valid" iff it is present and the timestamp is missing or at most one hour old |
| Expiry.FiftyNineAndSixtyOneMinutes | scripts/sendPayment.prerequest.js:38-60 | a present token aged 59 minutes is valid; one aged 61 minutes is expired |
| TokenCache.TokenStore.constructor | scripts/sendPayment.prerequest.js:10-12 | the cold start: no token, no timestamp, no descriptor |
| TokenCache.TokenStore.SaveRedirectResponse | scripts/getToken.postresponse.js:9-38 | the descriptor is always saved first; no `Location` header, or an empty extraction, leaves token and timestamp unchanged; otherwise the extracted token and `now` overwrite both together |
| TokenCache.TokenStore.SaveInitiateAuthResponse | InitiateAuth/scripts/getTokenInitiateAuth.postresponse.js:5-14 | token and `now` are written together iff `AuthenticationResult` is present with a non-empty `IdToken`, which overwrites any earlier token; otherwise nothing changes; the descriptor is never touched |
| TokenCache.TokenStore.PreRequestRefresh | scripts/sendPayment.prerequest.js:9-60 | changes nothing in the store; a falsy token gives one request with the cold-start callback; a present token older than an hour gives one with the expired-path callback; a valid token (or a missing timestamp) gives none; the request is the stored descriptor, or `{}`; for a store whose token always has a timestamp (`Paired`), sending nothing means the timestamp is at most one hour old |
| TokenCache.TokenStore.RefreshCallback | scripts/sendPayment.prerequest.js:16-57 | an error leaves the store unchanged; the cold-start callback stops on an absent or empty `Location`; the expired-path callback throws on an absent one; otherwise the extracted token, even "", is stored with `now` |
| TokenCache.TokenStore.CheckOnly | InitiateAuth/scripts/sendPaymentInitiateAuth.prerequest.js:8-29 | writes and sends nothing; reports no token iff the token is falsy, expired iff it is strictly more than one hour old, valid otherwise (including a missing timestamp); for a `Paired` store, valid means the timestamp is present and at most one hour old |
| TokenCache.RefreshThenCheck | scripts/sendPayment.prerequest.js:14-31 | after a refresh that stored "", the next check takes the cold-start path again; after one that stored a token, checks within the next hour send nothing |
| TokenCache.ReplayStoredRequest | scripts/getToken.postresponse.js:11 | a refresh after the hosted-login hook sends exactly the descriptor that hook saved |
| TokenCache.Lifecycle | scripts/sendPayment.prerequest.js:14-60 | from a cold start: the first check requests `{}` with the cold-start callback, the redirect stores `ABC123`, a check after 59 minutes sends nothing, and one after 61 minutes refreshes on the expired path |

The mutating hooks also ensure that they preserve `TokenStore.Paired()`: a
stored non-empty token always has a timestamp, because every write sets both.
The constructor establishes it. On such a store, the "valid because the
timestamp is missing" branch of the pre-request hooks is never taken.

## Left out

- String positions count Unicode scalar values (the characters of a Dafny string), while JavaScript counts UTF-16 code units. `Extract` and the `JsString` operations give different positions, and different results, only for headers containing characters outside the Basic Multilingual Plane.
- `pm.sendRequest`, HTTP transport and the Cognito endpoints are not modelled. A request is the `Action` a hook returns. Its response is the `err` flag and the optional `Location` value given to `RefreshCallback`, or the optional `AuthenticationResult` given to `SaveInitiateAuthResponse`.
- Callback scheduling is not modelled. The host may call `RefreshCallback` at any later point; concurrent or duplicate refreshes are not modelled.
- `console` output and the `slice(-15)` used only in log lines are left out.
- `Date` construction, serialisation into the global store and parsing back are left out. Timestamps are integer milliseconds, and an invalid date is `None`.
- `JSON.stringify(pm.request)` and `JSON.parse` of the descriptor are left out. The descriptor is opaque text.
- TokenCache.TokenStore.PreRequestRefresh: does not model a `JSON.parse` exception on a malformed stored descriptor. In the script that exception is caught and logged, and no request is sent.
- TokenCache.TokenStore.SaveInitiateAuthResponse: does not model `pm.response.json()` throwing on a non-JSON body. That aborts the script before any write, which is the store effect of `result == None`.
- TokenCache.TokenStore.SaveInitiateAuthResponse: an `IdToken` that is not a string is not modelled. It is either absent or a string, and only "" is falsy.
- The hosted-login hook's outer `catch` is not modelled. No statement it guards can throw once the descriptor is opaque.
