# Client-principal request handlers, modelled in Dafny

This project models the two serverless request handlers of a small web
application that sits behind a hosting platform's authentication gateway. The
gateway puts the signed-in caller's identity into the `x-ms-client-principal`
request header. The header holds a Base64-encoded UTF-8 JSON document with the
fields `identityProvider`, `userId`, `userDetails` and `userRoles`.

- `protected-data` (module `ProtectedData`) runs `checkAuthentication` on the
  header. It answers 401 to callers it does not recognise. For the others,
  `generateUserData` builds a record: the user id, a greeting embedding it, a
  timestamp, and a "user number", which is the sum of the id's UTF-16 code
  units mod 1000. Any later failure gives 500.
- `user-info` (module `UserInfo`) reports who the caller is. Without the header
  it returns an anonymous 200. Otherwise it returns 200 with the principal's
  fields reshaped. A failure while decoding or reading the principal gives 500.

Supporting modules:
- `Js` holds the JavaScript semantics the handlers rely on: strings as code
  units, the values `JSON.parse` returns, truthiness, property reads and `||`.
- `Http` holds the header, the decoder, response bodies and the shared 500
  response.
- `ClientPrincipal` holds the well-formed principal and its JSON form.
- `Endpoints` relates the answers of the two handlers to the same request.

Modelling choices:
- The decoding chain `Buffer.from(raw, 'base64').toString('utf-8')` followed by
  `JSON.parse` is a parameter `decode: JsString -> Parse`. It either throws or
  returns a JSON value. Every handler property is stated for every decoder.
- The wall clock `new Date().toISOString()` is a parameter `now`. `user-info`
  reads no clock, so its response depends only on the header.
- A `userId` is a sequence of UTF-16 code units, as `charCodeAt` sees it. A
  character outside the Basic Multilingual Plane adds both of its surrogates to
  the seed.
- The seed is a JavaScript number. `SeedIsExactDouble` shows that it stays
  below 2^53 for any string of at most 2^37 code units, so unbounded integers
  give the exact value. The seed is never negative, so JavaScript's `%`
  agrees with Dafny's.

Behaviour worth noting:
- The two endpoints classify an unreadable header differently. When decoding
  throws, or the payload parses to `null`, `user-info` answers 500 (reading
  `.userId` of `null` throws), while `protected-data` answers 401.
- Only `user-info` applies `userRoles || []`, and it keeps any truthy value of
  `userRoles` as it is.
- The seed sums UTF-16 code units, not code points.
- `protected-data` refuses every falsy payload with 401: `null`, `false`, `0`
  and `""`. `user-info` reports the non-`null` ones as authenticated, with no
  identity fields.
- A truthy payload whose `userId` is not a string makes `userId.split` throw,
  so `protected-data` answers 500.

## Model

| member | source | states |
|---|---|---|
| `ProtectedData.CheckAuthentication` | api/src/functions/protected-data.ts:18-33 | never throws; absent or empty header gives null; a throwing decode gives null; otherwise the parsed value, whatever its shape |
| `ProtectedData.SeedIsCodeUnitSum` | api/src/functions/protected-data.ts:38 | the left fold of `reduce` equals the sum of all code units of `userId` |
| `ProtectedData.SeedAppend` | api/src/functions/protected-data.ts:38 | the seed of a concatenation is the sum of the seeds and does not depend on the order of the parts |
| `ProtectedData.Seed` | api/src/functions/protected-data.ts:38 | the left fold of the code units; the seed is at most 0xFFFF times the number of code units |
| `ProtectedData.SeedIsExactDouble` | api/src/functions/protected-data.ts:38 | for ids of at most 2^37 code units the seed and every prefix's seed (each partial sum) is below 2^53, so the double-precision sum is exact |
| `ProtectedData.UserNumber` | api/src/functions/protected-data.ts:43 | the user number is in 0..999 and equals the code-unit sum mod 1000 |
| `ProtectedData.Greeting` | api/src/functions/protected-data.ts:41 | the message is the fixed prefix, then `userId` verbatim, then the fixed suffix, and nothing else |
| `ProtectedData.GreetedUserId` | api/src/functions/protected-data.ts:41 | reading a user id back out of a message succeeds only on a greeting, and the greeting of that id is the message |
| `ProtectedData.GreetingRoundTrip` | api/src/functions/protected-data.ts:41 | the greeting embeds `userId` verbatim between a fixed prefix and suffix, so the id can be read back |
| `ProtectedData.GreetingInjective` | api/src/functions/protected-data.ts:41 | different user ids give different greetings |
| `ProtectedData.GenerateUserData` | api/src/functions/protected-data.ts:36-45 | the record carries the input `userId` and the given timestamp, a greeting from which `userId` reads back, and a user number in 0..999 equal to the code-unit sum mod 1000 |
| `ProtectedData.OnlyTimestampDependsOnClock` | api/src/functions/protected-data.ts:42 | two records for the same id differ only in `timestamp` |
| `ProtectedData.UserNumberOfAbc` | api/src/functions/protected-data.ts:38-43 | "abc" gives user number 294 |
| `ProtectedData.StringUserId` | api/src/functions/protected-data.ts:67-70 | yields the id exactly when the principal's `userId` property is a string, and that string; any other value has no `split` method, so the call at line 38 throws |
| `ProtectedData.ProtectedDataHandler` | api/src/functions/protected-data.ts:47-92 | status is 200, 401 or 500; 401 with "Unauthorized" exactly when the principal is falsy; 200 exactly when it is truthy with a string `userId`, and then the body is that id's generated record; otherwise the crash body |
| `ProtectedData.MissingHeaderIsUnauthorized` | api/src/functions/protected-data.ts:19-24 | a missing or empty header gives 401 |
| `ProtectedData.ParseFailureIsUnauthorized` | api/src/functions/protected-data.ts:26-32 | a decode that throws is swallowed and gives 401, not 500 |
| `ProtectedData.FalsyPayloadIsUnauthorized` | api/src/functions/protected-data.ts:54-65 | a payload parsing to a falsy value gives 401 |
| `ProtectedData.PrincipalGetsUserData` | api/src/functions/protected-data.ts:67-79 | a well-formed principal gets 200 with exactly the record generated from its `userId` |
| `ProtectedData.NonStringUserIdCrashes` | api/src/functions/protected-data.ts:81-91 | a truthy payload without a string `userId` gives 500 with "Internal server error" and "Application Crash" |
| `ClientPrincipal.ToJsonFields` | api/src/functions/protected-data.ts:3-8 | each field of a principal reads back from its JSON object; an omitted `userRoles` reads as undefined |
| `Js.Truthy` | api/src/functions/protected-data.ts:54 | JavaScript truthiness as tested by `!x`; arrays and objects, even empty ones, are truthy and `null` is falsy |
| `Js.OrElse` | api/src/functions/user-info.ts:53 | `x || fallback`: the result is the read value exactly when that value is truthy, otherwise the fallback, and it is truthy whenever the fallback is |
| `Js.GetProperty` | api/src/functions/user-info.ts:49-53 | no contract, the body is the definition: a property read on a parsed value, the own field of an object or `undefined`; the reads of `.userId` at protected-data.ts:67-70 and of `.userId`/`.userDetails`/`.identityProvider`/`.userRoles` here; used by `Shape` and `StringUserId` |
| `Http.HeaderPresent` | api/src/functions/protected-data.ts:21 | no contract, the body is the definition: `!clientPrincipalHeader` is false exactly for a header that is there and not the empty string (also user-info.ts:26); used by both handlers |
| `Http.Crash` | api/src/functions/protected-data.ts:81-91 | the catch-block response shared with user-info.ts:65-74: status 500 with "Internal server error" and "Application Crash" |
| `UserInfo.Shape` | api/src/functions/user-info.ts:48-55 | authenticated; `userId` and `provider` copied from `userId` and `identityProvider`; `name` and `email` both equal `userDetails`; `roles` is `userRoles` when truthy and `[]` otherwise, so it is never null |
| `UserInfo.UserInfoHandler` | api/src/functions/user-info.ts:19-76 | status is 200 or 500, never 401; a missing or empty header gives the anonymous body; with the header, 500 exactly when the decode throws or yields null; a 200 body is authenticated exactly when the header is present and is the shaped principal |
| `UserInfo.PrincipalIsReported` | api/src/functions/user-info.ts:48-55 | a well-formed principal is reported field by field, with its roles or `[]` when `userRoles` is omitted |
| `UserInfo.ParseFailureCrashes` | api/src/functions/user-info.ts:65-74 | a decode that throws gives 500, not an anonymous 200 |
| `UserInfo.NullPayloadCrashes` | api/src/functions/user-info.ts:49 | a payload parsing to null gives 500, since reading `.userId` of null throws |
| `Endpoints.AnonymousCaller` | api/src/functions/user-info.ts:26-38 | without the header, `protected-data` gives 401 and `user-info` the anonymous 200 body |
| `Endpoints.ParseFailureDiverges` | api/src/functions/protected-data.ts:26-32 | a throwing decode or a null payload gives 401 from `protected-data` and 500 from `user-info` |
| `Endpoints.FalsyPayloadDiverges` | api/src/functions/protected-data.ts:54 | a payload of `false`, `0` or `""` is refused with 401 by `protected-data`; `user-info` reports it as authenticated with every identity field undefined |
| `Endpoints.ServedCallerIsAuthenticated` | api/src/functions/protected-data.ts:67-79 | whenever `protected-data` serves a record, `user-info` reports that caller as authenticated under the record's `userId` |
| `Endpoints.GithubExample` | api/src/functions/user-info.ts:48-55 | the GitHub principal "u1"/"Jane"/["admin"] is reported field by field; `protected-data` serves it user number (117 + 49) mod 1000 |

## Left out

- Base64 decoding, UTF-8 decoding and `JSON.parse`: Node runtime calls, abstracted as the `decode` parameter (throws, or returns a JSON value).
- `new Date().toISOString()`: the wall clock, passed in as `now`.
- JSON serialisation of the response: property order, and the dropping of `undefined` fields, are not modelled; a body field holding `Undefined` stands for a missing field.
- Duplicate keys in the JSON document: a parsed object is a map, so only the key's final value is visible, as with `JSON.parse`.
- JSON numbers are modelled as reals: the handlers only test numbers for truthiness or copy them; `Infinity` (what `JSON.parse` gives for an overflowing literal such as `1e400`) is not represented.
- `Js.GetProperty` sees only the own properties of a parsed object, not the built-in properties of strings, arrays and objects. This is exact for the four field names the handlers read.
- `context.log`, the `app.http` registrations, the `Content-Type` response header and the Azure Functions host: logging and plumbing.
- The gateway's guarantee that only it sets the header is outside the code and is not modelled.
- frontend/src/app/page.tsx, frontend/src/app/protected/page.tsx and frontend/src/hooks/useAuth.ts: presentational React code, `fetch` calls and browser redirects, with no decision logic.
