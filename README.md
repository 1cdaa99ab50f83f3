# ServiceStack session identity, modelled in Dafny

This project models the session-identity logic of ServiceStack's `SessionExtensions`
class and proves properties about it. It covers these parts:

- **Finding a session parameter.** The request's item cache is tried first, then the
  `X-<key>` header. Next come the query string and the form data, but only when the host
  allows session ids in HTTP parameters. The cookie is tried last.
- **Session ids.** The temporary id (`ss-id`) and the permanent id (`ss-pid`). Which one is
  active depends on whether the request's option set (`ss-opt`) contains `perm`.
- **The option set.** `perm` and `temp` exclude each other. The set is written back to the
  item cache and to a permanent cookie.
- **Creating ids.** An id is sent as a session cookie or a permanent cookie and recorded
  in the items.
- **Random ids.** 15 random bytes are drawn and base64-encoded. The draw is repeated until
  the text holds neither `+` nor `/`.
- **Merging roles and permissions.** Entries are added to the session if they are absent.
- **User names.** The user name and the user-auth-id-or-name are null-coalescing chains.
- **The session cache.** Lookup and removal of sessions in the cache.
- **Cookie deletion and rotation.** Deleting session and JWT cookies, and rotating the
  session ids of a request.

Files:

- `wrappers.dfy`: `Option`.
- `text.dfy`: .NET's `string.Split(char)`, `string.Join` and `IndexOfAny`, with the
  split/join round trips.
- `base64.dfy`: the base64 alphabet and encoder of RFC 4648 section 4 (`Convert.ToBase64String`).
  A decoder is its partner, and the round trip `Decode(Encode(bs)) == Some(bs)` is proved.
- `session_ids.dfy`: random ids. The secure random generator is an `Entropy` value: the
  stream of bytes it would hand out, and the position reached so far.
- `session_types.dfy`: the key constants, the configuration flags, and the `Request`,
  `HttpResponse` (its cookie jar as a log of cookie writes), `AuthSession` and `CacheClient`
  classes.
- `session_extensions.dfy`: the operations of `SessionExtensions`.

Request items, cookies, the session object and the cache are fields that the methods
update in place, each under a `modifies` clause. The two `HostContext.Config` flags arrive
in a `Config` parameter.

## Model

| member | source | states |
|---|---|---|
| SessionExtensions.FirstPresent | ServiceStack/src/ServiceStack/SessionExtensions.cs:67-72 | a `??` chain is null exactly when every operand is null; otherwise it is the first operand that is not null |
| SessionExtensions.SessionParamPriority | ServiceStack/src/ServiceStack/SessionExtensions.cs:65-73 | a session parameter is the first one set of: the string item (a non-string item counts as absent), the `X-<key>` header, the query string and form data (only when the flag allows HTTP parameters), and the cookie |
| SessionExtensions.SessionParamIgnoresHttpParams | ServiceStack/src/ServiceStack/SessionExtensions.cs:69-71 | with HTTP parameters disallowed, two requests that differ only in query string and form data resolve every parameter alike |
| SessionExtensions.SessionIdFromItems | ServiceStack/src/ServiceStack/SessionExtensions.cs:45-63 | an id stored in the items under the active lifetime's key is the request's session id, whatever headers, parameters and cookies say |
| SessionExtensions.ParseSessionOptions | ServiceStack/src/ServiceStack/SessionExtensions.cs:180-186 | a null or empty options string is the empty set, and no other string is; no parsed option holds a comma |
| SessionExtensions.GetSessionOptions | ServiceStack/src/ServiceStack/SessionExtensions.cs:180-186 | the request's option set holds no option with a comma in it |
| SessionExtensions.PermanentWhenListed | ServiceStack/src/ServiceStack/SessionExtensions.cs:175-186 | a null request is never permanent; any other request is permanent exactly when `perm` is one of the comma-split pieces of its options string |
| SessionExtensions.LastLifetimeOptionWins | ServiceStack/src/ServiceStack/SessionExtensions.cs:213-223 | of `perm` and `temp`, the one given last is in the resulting set and the other is not |
| SessionExtensions.LifetimeUntouched | ServiceStack/src/ServiceStack/SessionExtensions.cs:213-223 | options without `perm` or `temp` leave both lifetime flags as they were |
| SessionExtensions.OtherOptionsKeptAndAdded | ServiceStack/src/ServiceStack/SessionExtensions.cs:213-223 | any other option is in the result exactly when it was there before or is a non-empty option given; null and empty options are skipped |
| SessionExtensions.AppliedOptionsFrom | ServiceStack/src/ServiceStack/SessionExtensions.cs:213-223 | every option in the result was there before or was given |
| SessionExtensions.AddingPresentOption | ServiceStack/src/ServiceStack/SessionExtensions.cs:217-222 | adding an option that is present, while its opposite is absent, leaves the set unchanged |
| SessionExtensions.ApplySessionOptionIdempotent | ServiceStack/src/ServiceStack/SessionExtensions.cs:215-222 | for every starting set, applying the same option a second time changes nothing |
| SessionExtensions.ToArray | ServiceStack/src/ServiceStack/SessionExtensions.cs:225 | the array lists every element of the set exactly once |
| SessionExtensions.OptionsRoundTrip | ServiceStack/src/ServiceStack/SessionExtensions.cs:225 | the comma-joined set parses back to the same set, provided no element holds a comma and the set is not `{""}` |
| SessionExtensions.AddSessionOptions | ServiceStack/src/ServiceStack/SessionExtensions.cs:207-233 | with a null request or no options: empty result, and neither items nor cookies written. Otherwise the result is the options applied in order to the current set, and its comma-join is stored in the items and in a permanent `ss-opt` cookie. Without commas in the options and with a result other than `{""}`, the request's option set afterwards is the result |
| SessionExtensions.IdCookie | ServiceStack/src/ServiceStack/SessionExtensions.cs:155-164 | the `ss-id` key gets a session cookie and every other key a permanent cookie, with the given name and value; secure exactly when secure cookies are configured and the connection is secure |
| SessionExtensions.CreateSessionId | ServiceStack/src/ServiceStack/SessionExtensions.cs:153-168 | returns the id and records it in the items under the key. On an HTTP response it appends that key's cookie; a non-HTTP response gets no cookie. Nothing else changes |
| SessionExtensions.CreatePermanentSessionId | ServiceStack/src/ServiceStack/SessionExtensions.cs:147-148 | a well-formed id is stored under `ss-pid` and sent as a permanent cookie. The id decodes to a 15-byte draw of the generator, and the generator moves past that draw. The option set is unchanged |
| SessionExtensions.CreateTemporarySessionId | ServiceStack/src/ServiceStack/SessionExtensions.cs:150-151 | a well-formed id is stored under `ss-id` and sent as a session cookie. The id decodes to a 15-byte draw of the generator, and the generator moves past that draw. The option set is unchanged |
| SessionExtensions.CreateTemporarySessionIdWithValue | ServiceStack/src/ServiceStack/SessionExtensions.cs:169-170 | the given id is stored under `ss-id` and sent on the request's own response |
| SessionExtensions.CreatePermanentSessionIdWithValue | ServiceStack/src/ServiceStack/SessionExtensions.cs:171-172 | the given id is stored under `ss-pid` and sent on the request's own response |
| SessionExtensions.CreateActiveSessionId | ServiceStack/src/ServiceStack/SessionExtensions.cs:79-84 | only the active lifetime's id is created. It decodes to a 15-byte draw of the generator, which moves past that draw. The lifetime is unchanged, and the new id is the request's session id |
| SessionExtensions.CreateSessionIds | ServiceStack/src/ServiceStack/SessionExtensions.cs:90-97 | both ids are stored and sent, permanent first. They decode to two draws of the generator, the permanent id's draw earlier, and the generator moves past the later draw. The result is the permanent id exactly when the request is permanent, and it is then the request's session id |
| SessionExtensions.CreateSessionIdsForRequest | ServiceStack/src/ServiceStack/SessionExtensions.cs:30 | two well-formed ids are stored under `ss-pid` and `ss-id`, and no other item changes. They decode to two successive draws of the generator, permanent first, and the generator moves past both. On an HTTP response the permanent cookie and then the session cookie are sent. The result is the id of the active lifetime, which is kept, and it is the request's session id |
| SessionExtensions.SetSessionId | ServiceStack/src/ServiceStack/SessionExtensions.cs:33-43 | a null or empty id changes nothing; any other id is stored under the active key and becomes the request's session id, with the lifetime unchanged |
| SessionExtensions.GetOrCreateSessionId | ServiceStack/src/ServiceStack/SessionExtensions.cs:27-31 | an existing session id is returned, with the items, the cookies and the generator unchanged. Otherwise two well-formed ids are stored and sent as cookies, and the one of the active lifetime is returned. The two ids decode to successive draws of the generator, permanent first, and the generator moves past both. Either way the lifetime is kept and the result is the request's session id |
| SessionExtensions.UserNamePriority | ServiceStack/src/ServiceStack/SessionExtensions.cs:188-192 | the user name is the first of UserAuthName, UserName, Email that is set; the id-or-name puts UserAuthId first; both are null for a null session |
| SessionExtensions.MergeKeepsExisting | ServiceStack/src/ServiceStack/SessionExtensions.cs:203-204 | merging keeps the existing entries, in their order, at the front |
| SessionExtensions.MergeContents | ServiceStack/src/ServiceStack/SessionExtensions.cs:203-204 | the merged list holds exactly the entries of both lists |
| SessionExtensions.MergeAppendsNew | ServiceStack/src/ServiceStack/SessionExtensions.cs:203-204 | whatever the list held before, duplicates included, the merge appends only entries the list did not hold, each of them once |
| SessionExtensions.MergeDistinct | ServiceStack/src/ServiceStack/SessionExtensions.cs:203-204 | a corollary: merging into a list without duplicates gives a list without duplicates |
| SessionExtensions.MergePresent | ServiceStack/src/ServiceStack/SessionExtensions.cs:203-204 | merging entries that are all present changes nothing |
| SessionExtensions.MergeIdempotent | ServiceStack/src/ServiceStack/SessionExtensions.cs:203-204 | merging the same entries a second time changes nothing |
| SessionExtensions.AddEachIfNotExists | ServiceStack/src/ServiceStack/SessionExtensions.cs:203-204 | the in-place `ForEach(AddIfNotExists)` loop computes the merge |
| SessionExtensions.UpdateSession | ServiceStack/src/ServiceStack/SessionExtensions.cs:194-205 | with a null session or account nothing changes. Otherwise roles and permissions become the merges of the old lists (a missing list read as empty) with the account's; no other session field changes |
| SessionExtensions.SessionKeyInjective | ServiceStack/src/ServiceStack/SessionExtensions.cs:238 | session ids map to distinct cache keys, and the id can be read back off its key |
| SessionExtensions.GetSessionKey | ServiceStack/src/ServiceStack/SessionExtensions.cs:235-239 | the key is null exactly when the request has no session id; otherwise it is the session prefix followed by that id |
| SessionTypes.AuthSession.constructor | ServiceStack/src/ServiceStack/SessionExtensions.cs:268 | a new session has every field unset |
| SessionExtensions.GetUntypedSession | ServiceStack/src/ServiceStack/SessionExtensions.cs:253-270 | a cached session under the request's key is returned. Otherwise the result is a new unauthenticated session. A request with a key keeps its items and cookies. A request without one first gets two well-formed ids, stored and sent as cookies. They decode to successive draws of the generator, permanent first, and the generator moves past both. The new id of its lifetime becomes its session id |
| SessionExtensions.ClearSession | ServiceStack/src/ServiceStack/SessionExtensions.cs:291-294 | the request's session key, and only it, is removed from the cache; without a key nothing is removed |
| SessionExtensions.DeleteSessionCookies | ServiceStack/src/ServiceStack/SessionExtensions.cs:353-359 | an HTTP response gets deletions of `ss-id`, `ss-pid` and `X-UAId`, in that order |
| SessionExtensions.DeleteJwtCookie | ServiceStack/src/ServiceStack/SessionExtensions.cs:361-366 | an HTTP response gets deletions of the token and refresh-token cookies |
| SessionExtensions.RotatedSessionState | ServiceStack/src/ServiceStack/SessionExtensions.cs:379-389 | once the re-asserted lifetime option is stored beside both new ids, the request keeps its lifetime and its session id is the new id of that lifetime |
| SessionExtensions.AssignRotatedSession | ServiceStack/src/ServiceStack/SessionExtensions.cs:382-389 | re-asserts the request's lifetime option and stores the session under `__session` with the id of that lifetime. The session id afterwards is the session's id, and the session's other fields are unchanged |
| SessionExtensions.CreateRotatedSessionIds | ServiceStack/src/ServiceStack/SessionExtensions.cs:379-380 | the new temporary id and then the new permanent id are stored and sent. They decode to two draws of the generator, the temporary one earlier, and the generator moves past the later draw. The option set is unchanged |
| SessionExtensions.GenerateNewSessionCookies | ServiceStack/src/ServiceStack/SessionExtensions.cs:368-390 | without an HTTP response nothing changes. Otherwise: the old session leaves the cache; the cookie jar holds exactly the new temporary id, the new permanent id and the option cookie; the two ids decode to successive draws of the generator, temporary first, and the generator moves past both; the lifetime is kept; the session is stored with the new id of its lifetime, which is the request's session id |
| SessionIds.UrlUnfriendlyChars | ServiceStack/src/ServiceStack/SessionExtensions.cs:141-145 | the check is true exactly when the text holds a `+` or a `/` |
| SessionIds.PopulateWithSecureRandomBytes | ServiceStack/src/ServiceStack/SessionExtensions.cs:117-120 | the buffer holds the generator's next bytes, and the generator moves past them |
| SessionIds.DrawBase64 | ServiceStack/src/ServiceStack/SessionExtensions.cs:135-136 | one loop pass: the buffer holds the next draw, and the result is its base64 text |
| SessionIds.CreateRandomBase62Id | ServiceStack/src/ServiceStack/SessionExtensions.cs:129-139 | the result holds neither `+` nor `/`. It is the encoding of the first URL-friendly draw: every earlier draw was rejected |
| SessionIds.UrlFriendlyEncoding | ServiceStack/src/ServiceStack/SessionExtensions.cs:136-137 | a URL-friendly encoding of whole three-byte groups is all letters and digits and decodes to its bytes |
| SessionIds.CreateRandomSessionId | ServiceStack/src/ServiceStack/SessionExtensions.cs:103-115 | the id is 20 letters and digits and decodes to the 15 bytes of the first URL-friendly draw. Every earlier draw was rejected, and the generator has moved 15 bytes per draw |
| SessionIds.CreateRandomBase64Id | ServiceStack/src/ServiceStack/SessionExtensions.cs:122-127 | one draw of `size` bytes (15 by default), encoded as it comes: the id is the encoding of the next `size` bytes, is 4 characters per started group of 3 bytes long, and decodes back to those bytes |
| SessionIds.DrawnIsProduct | ServiceStack/src/ServiceStack/SessionExtensions.cs:133-137 | `k` draws of `size` bytes consume `k * size` bytes of the stream; this gives the generator's position after CreateRandomSessionId |
| SessionIds.LaterDraw | ServiceStack/src/ServiceStack/SessionExtensions.cs:90-97 | a generator that stands `j` session-id draws further along makes as its `k`-th draw the `(j + k)`-th draw of the original; this ties the second id of a pair to the first one's generator |
| SessionIds.AllRejectedBefore | ServiceStack/src/ServiceStack/SessionExtensions.cs:133-137 | when the loop has gone on past a draw, that draw was not URL-friendly |
| Base64.DecodeEncode | ServiceStack/src/ServiceStack/SessionExtensions.cs:112 | base64 text decodes back to the bytes it encodes |
| Base64.EncodeLength | ServiceStack/src/ServiceStack/SessionExtensions.cs:112 | the text is 4 characters per started group of 3 bytes, so 15 bytes give 20 characters |
| Base64.EncodeDigits | ServiceStack/src/ServiceStack/SessionExtensions.cs:136 | whole groups encode to alphabet characters only, so there is no padding |
| Base64.Value | ServiceStack/src/ServiceStack/SessionExtensions.cs:112 | decoding a character is the inverse of the alphabet: it is defined exactly for letters, digits, `+` and `/` |
| Text.Split | ServiceStack/src/ServiceStack/SessionExtensions.cs:185 | `Split(',')` gives at least one piece, and no piece holds the separator |
| Text.SplitJoin | ServiceStack/src/ServiceStack/SessionExtensions.cs:185 | splitting a non-empty join of separator-free pieces gives the pieces back |
| Text.JoinSplit | ServiceStack/src/ServiceStack/SessionExtensions.cs:185 | joining the pieces of a split gives the text back |
| Text.JoinEmpty | ServiceStack/src/ServiceStack/SessionExtensions.cs:225 | a join is empty exactly when there are no pieces or just one empty piece |
| Text.IndexOfAny | ServiceStack/src/ServiceStack/SessionExtensions.cs:144 | the result is -1 when no character of the set occurs; otherwise it is the first index holding one |

## Left out

- `RandomNumberGenerator` and the thread-static byte buffer are not modelled. The generator is an
  `Entropy` value that is passed in and handed back. Each call draws into its own fresh buffer.
- The rejection loops end only with probability one. Each method that draws states as its precondition that
  some later draw is URL-friendly. For session ids this is `Fair`: the condition holds from every
  position of the stream.
- `HostContext.Config` and `HostContext.GetCurrentRequest()` are ambient globals. The two
  configuration flags are a parameter. `GetSessionId` and the members built on it take a non-null request.
- `SessionAs`, `SessionAsAsync`, the `GetSessionBag` family, the typed `Get`/`Set`/`Remove`
  wrappers, `ToAuthUserSession` and `FromAuthUserSession` are left out. They delegate to session
  factories, dependency resolution and reflection-based mapping, which are not part of this model.
- The async variants (`GetUntypedSessionAsync`, `ClearSessionAsync`,
  `GenerateNewSessionCookiesAsync`) are modelled by their sequential counterparts. Cancellation
  tokens are dropped.
- GetUntypedSession: the explicit `httpRes` argument is not modelled. New ids always go to the
  request's own response.
- `IResponse.ClearCookies()` is not part of this model. It is taken to empty the response's list
  of pending cookie writes.
- `SessionFeature.CreateSessionIds`, `SessionFeature.GetSessionKey` and `RemoveSessionAsync` are not part of this model.
  They are taken to create both ids on the request's response, to prefix the id with
  `urn:iauthsession:`, and to remove that key from the cache.
- The key constants (`ss-id`, `ss-pid`, `ss-opt`, `__session`, `X-UAId`, `ss-tok`, `ss-reftok`)
  are defined in `Keywords`, `SessionFeature` and `HttpHeaders`, which are not part of this model.
  The proofs depend only on these constants being distinct.
- ClearSession: removing a null key, which the cache client is handed when the request has no session id,
  is modelled as removing nothing.
- AddSessionOptions: a null `options` array is not modelled. It throws at line 209; the one
  caller in this file (line 383) passes a one-element array.
- GenerateNewSessionCookies takes a non-null `AuthSession`. With a null session the source
  throws an exception at line 385, after it has already removed the cache entry, cleared the cookies and written
  the new ids and the option. That partial effect is not modelled.
- GetSessionParam: the host looks up headers, query-string values and form values (lines 68-70)
  ignoring case. The model looks names up exactly in a `map<string, string>`.
- CreateRandomBase62Id and CreateRandomBase64Id: a negative size, which would throw, is excluded
  because the size is a `nat`.
- UpdateSession: the session's lists are values. Aliasing between the session's lists and the
  account's lists is not modelled.
- ToArray: the enumeration order of a `HashSet` is not specified. The model picks some order and
  states only that each element is listed once.
- SessionIds.WellFormedSessionId states only length and alphabet. The fact that the id decodes
  to the drawn bytes is stated on CreateRandomSessionId.
