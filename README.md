# Unsplash editor: OAuth PKCE login and photo search, in Dafny

This project models the login helper and the search facade of the Unsplash image editor.

- **`UnsplashAuth`** (`UnsplashAuth.dfy`) models the client side of the OAuth 2.0 authorization-code flow with PKCE (RFC 7636) against Unsplash. It covers:
  - the random code verifier and anti-forgery state drawn from the 66 unreserved characters;
  - the base64url step of the code challenge;
  - `initiateLogin`, which stores the PKCE record and builds the authorize URL;
  - `handleCallback`, which checks the code and state and exchanges the code for a token;
  - `getAccessToken`, `isAuthenticated` and `logout`.

  Browser session storage is a class whose `map` field the operations update in place.
- **`Unsplash`** (`Unsplash.dfy`) models the photo-search facade and its three modes:
  - dummy mode returns twenty synthetic results built from five fixed image URLs;
  - OAuth mode builds the client from the stored access token;
  - public-key mode builds the client from the configured access key.

  The module-level cached client is a class with one field. `getApiClient` fills it, `resetApiClient` clears it and `searchPhotos` uses it. The search itself consists of the result mapping and the translation of errors that mention 403 into the rate-limit error.
- **`Strings`** (`Strings.dfy`) holds the JavaScript string operations both modules rely on, each with its meaning proved:
  - `includes`;
  - `replace` of the first occurrence;
  - global replacement and deletion of a character;
  - `join`;
  - decimal rendering of a number.
- **`Wrappers`** (`Wrappers.dfy`) holds `Option`, `Result`, a thrown JavaScript value (an `Error` with its message, or anything else), and JavaScript truthiness of an optional string.

Whatever the modules take from the environment is passed in as a parameter:

- the random bytes;
- `btoa` of the SHA-256 digest;
- the build-time configuration (`import.meta.env`);
- the callback's query parameters;
- the outcome of the token request;
- the outcome of the search request.

`handleCallback` removes the PKCE record only when the token exchange succeeds (`src/auth/unsplashAuth.ts:140-141`); every failed callback leaves it in place, as `CallbackFailureChangesNothing` states.

Three behaviours of the source are kept as written:

- `getApiClient` treats an empty stored token as absent, because of the truthiness test at `src/lib/unsplash.ts:86`. `isAuthenticated` counts an empty token as a login, because it compares with `!== null`.
- `if (response.errors)` is true for an empty error array, so such a response fails with an empty message.
- The "API client not initialized" branch of `searchPhotos` cannot be reached in live mode, but it is kept as in the source.

## Model

| member | source | states |
|---|---|---|
| UnsplashAuth.RandomString | src/auth/unsplashAuth.ts:18-29 | one character per random byte, so the length equals the byte count |
| UnsplashAuth.GenerateRandomString | src/auth/unsplashAuth.ts:18-29 | the loop builds exactly `RandomString` of the bytes: character `i` is `chars[bytes[i] % 66]`, the length is `length`, and every character is an RFC 7636 unreserved character |
| UnsplashAuth.AlphabetIsUnreserved | src/auth/unsplashAuth.ts:19 | the alphabet has 66 characters and each is unreserved in the sense of section 4.1 of RFC 7636 |
| UnsplashAuth.UnreservedIsInAlphabet | src/auth/unsplashAuth.ts:19 | every unreserved character occurs in the alphabet, so the alphabet is exactly the unreserved set |
| UnsplashAuth.RandomStringIsUnreserved | src/auth/unsplashAuth.ts:24-26 | every character drawn through `% chars.length` is unreserved, whatever the bytes |
| UnsplashAuth.Base64Url | src/auth/unsplashAuth.ts:40-44 | the result has no `+`, `/` or `=`, and it is the input's length minus its `=` count |
| UnsplashAuth.Base64UrlAlphabet | src/auth/unsplashAuth.ts:40-44 | base64 input gives output in the base64url alphabet of section 5 of RFC 4648, all of it unreserved |
| UnsplashAuth.Base64UrlRoundTrip | src/auth/unsplashAuth.ts:42-44 | mapping `-` and `_` back to `+` and `/` recovers the base64 input minus its padding, so only the padding is lost |
| UnsplashAuth.UnpaddedBase64RoundTrip | src/auth/unsplashAuth.ts:40-44 | base64 without padding comes back unchanged from the base64url conversion and its inverse |
| UnsplashAuth.CharMappingsCancel | src/auth/unsplashAuth.ts:42-43 | on text without `-` and `_`, the two character substitutions are undone by their inverses |
| UnsplashAuth.Sha256 | src/auth/unsplashAuth.ts:34-45 | the code challenge has no `+`, `/` or `=` |
| UnsplashAuth.SessionStorage.SetItem | src/auth/unsplashAuth.ts:69 | storage afterwards is the old map with that key bound to that value |
| UnsplashAuth.SessionStorage.RemoveItem | src/auth/unsplashAuth.ts:141 | storage afterwards is the old map without the key; removing an absent key changes nothing |
| UnsplashAuth.SessionStorage.GetItem | src/auth/unsplashAuth.ts:101 | `getItem` gives `null` exactly when the key is absent, and otherwise the stored value |
| UnsplashAuth.GetAccessToken | src/auth/unsplashAuth.ts:155-157 | a token is returned exactly when one is stored under the token key, and it is the stored text |
| UnsplashAuth.IsAuthenticated | src/auth/unsplashAuth.ts:170-172 | authenticated exactly when the token key is present, including an empty token |
| UnsplashAuth.NewPkceState | src/auth/unsplashAuth.ts:58-68 | the verifier and the state have one unreserved character per random byte, and the challenge is the base64url SHA-256 of the verifier with no `+`, `/` or `=` |
| UnsplashAuth.AuthorizeParams | src/auth/unsplashAuth.ts:72-79 | the authorize URL carries seven query parameters with pairwise distinct names |
| UnsplashAuth.Lookup | src/auth/unsplashAuth.ts:92-94 | `get` gives no value exactly when no parameter has the name, and any value it gives belongs to a parameter with that name |
| UnsplashAuth.LookupFindsFirst | src/auth/unsplashAuth.ts:72-79 | a query-parameter lookup finds the first parameter with the requested name |
| UnsplashAuth.AuthorizeParamsCarryPkce | src/auth/unsplashAuth.ts:72-79 | the authorize URL names the client and the redirect URI, asks for a code with scope `public` and method S256, and carries the stored challenge and state |
| UnsplashAuth.InitiateLogin | src/auth/unsplashAuth.ts:50-83 | a missing or empty client id or redirect URI throws the configuration error and writes nothing; otherwise only the PKCE key changes, it holds the new PKCE record, and the result is the authorize URL |
| UnsplashAuth.Callback | src/auth/unsplashAuth.ts:91-150 | the callback succeeds exactly when it reports no error; a failure leaves storage as it was; a success stores a token and removes the PKCE record; storage stays well formed |
| UnsplashAuth.ExchangeErrorMessage | src/auth/unsplashAuth.ts:144-148 | the message starts with "Token exchange error: ", followed by the thrown `Error`'s message, or by "Unknown error" when something else was thrown |
| UnsplashAuth.ExchangeRequest | src/auth/unsplashAuth.ts:121-127 | the token request carries `grant_type` "authorization_code", the callback's code, the stored code verifier, and the configured client id and redirect URI |
| UnsplashAuth.HandleCallback | src/auth/unsplashAuth.ts:91-150 | the result and the new storage are those of `Callback` on the old storage, and a successful callback leaves the user authenticated |
| UnsplashAuth.CallbackEarlyExits | src/auth/unsplashAuth.ts:96-111 | the exits in order are: no code, then no PKCE record, then a state mismatch; each has its message and leaves storage as it was |
| UnsplashAuth.CallbackFailureChangesNothing | src/auth/unsplashAuth.ts:96-149 | every failed callback, including a rejected or thrown token request, reports an error and leaves storage unchanged |
| UnsplashAuth.CallbackSuccess | src/auth/unsplashAuth.ts:109-143 | success holds exactly when a code came back, a PKCE record is stored, the state matches it, and the request with the code and the stored verifier is answered ok; then only the token is added and only the PKCE record is removed |
| UnsplashAuth.StateMismatchNeverWritesToken | src/auth/unsplashAuth.ts:109-111 | a callback whose state differs from the stored state fails and leaves storage unchanged, so no token is written (the CSRF check) |
| UnsplashAuth.CallbackIsSingleUse | src/auth/unsplashAuth.ts:138-141 | once a callback succeeds, a second callback cannot succeed, because the PKCE record is gone |
| UnsplashAuth.LoggedOut | src/auth/unsplashAuth.ts:162-165 | the logged-out storage has neither the token nor the PKCE key, and every other key keeps its presence and its value |
| UnsplashAuth.Logout | src/auth/unsplashAuth.ts:162-165 | storage afterwards is `LoggedOut` of the old storage, and the user is no longer authenticated |
| UnsplashAuth.LogoutIdempotent | src/auth/unsplashAuth.ts:162-165 | logging out twice equals logging out once, and logging out keeps storage well formed |
| Strings.ReplaceFirstSplices | src/lib/unsplash.ts:51 | if the pattern first occurs at `i`, `replace` rewrites exactly that occurrence and keeps the rest |
| Strings.ReplaceFirst | src/lib/unsplash.ts:51 | `replace` leaves text that does not include the pattern unchanged |
| Strings.Includes | src/lib/unsplash.ts:156 | text includes only patterns no longer than itself, and always includes the empty pattern |
| Strings.ReplaceChar | src/auth/unsplashAuth.ts:42-43 | the length is kept and every occurrence of the character, and only those, is replaced |
| Strings.RemoveChar | src/auth/unsplashAuth.ts:44 | the character no longer occurs, the length drops by its count, and every other character keeps its count |
| Strings.Join | src/lib/unsplash.ts:130 | the joined text includes every part |
| Strings.NatToString | src/lib/unsplash.ts:47 | the decimal rendering is non-empty and all digits |
| Strings.JoinIncludes | src/lib/unsplash.ts:130 | when the separator shares no character with the pattern, the joined messages include the pattern exactly when one of them does |
| Strings.DecimalRoundTrip | src/lib/unsplash.ts:47 | the decimal rendering of a number is all digits and parses back to the number |
| Strings.NatToStringInjective | src/lib/unsplash.ts:47 | distinct numbers have distinct decimal renderings |
| Unsplash.MockResults | src/lib/unsplash.ts:40-61 | twenty results, and a total of twenty |
| Unsplash.MockPhoto | src/lib/unsplash.ts:44-54 | synthetic photo `i` has an id of "mock-" followed by digits, thumbnail and small URLs equal to pool entry `i % 5`, and an alt text |
| Unsplash.GenerateMockResults | src/lib/unsplash.ts:40-61 | the loop pushes exactly the twenty synthetic photos of `MockResults`, in order, with total 20 |
| Unsplash.MockIdsArePositions | src/lib/unsplash.ts:44-54 | result `i` has id exactly `mock-` followed by the decimal rendering of `i`, whose digits parse back to `i`, and its label numbers it `i + 1` |
| Unsplash.MockIdsDistinct | src/lib/unsplash.ts:47 | the twenty synthetic ids are pairwise distinct |
| Unsplash.MockCyclesPool | src/lib/unsplash.ts:45-50 | the thumbnail and small URLs are pool entry `i % 5`, so results five apart share their URLs |
| Unsplash.PoolUrlWidens | src/lib/unsplash.ts:29-51 | a pool URL has `w=700` only at its end, so `replace` turns it into the same URL ending in `w=1080` |
| Unsplash.PoolLacksWidth | src/lib/unsplash.ts:29-35 | no host, photo kind, timestamp or photo id in the pool contains a `w` |
| Unsplash.MockRegularIsWider | src/lib/unsplash.ts:49-51 | every synthetic `regular` URL is its thumbnail URL with the final `w=700` replaced by `w=1080` |
| Unsplash.SelectCredential | src/lib/unsplash.ts:83-98 | a non-empty OAuth token is preferred; without one, a non-empty public key is used, and it is that key; there is no credential exactly when both are absent or empty; the chosen key is never empty |
| Unsplash.IsDummyMode | src/lib/unsplash.ts:76 | dummy mode is on exactly when the variable is present and equal to the string "true"; an absent variable leaves it off |
| Unsplash.ClientFor | src/lib/unsplash.ts:88-95 | a client is built exactly when a credential was chosen, and it is built from that credential |
| Unsplash.ApiClientCache.constructor | src/lib/unsplash.ts:66 | the module starts with no cached client |
| Unsplash.ApiClientCache.GetApiClient | src/lib/unsplash.ts:71-101 | a cached client is returned unchanged; dummy mode gives no client and caches nothing; otherwise the client is built from `SelectCredential` and cached, or the missing-key error is thrown and nothing is cached |
| Unsplash.ApiClientCache.ResetApiClient | src/lib/unsplash.ts:167-169 | the cache is empty afterwards, so the next search chooses its credential again |
| Unsplash.ApiClientCache.SearchPhotos | src/lib/unsplash.ts:106-162 | dummy mode returns `MockResults(query)` and leaves the cache alone; live mode fails with the missing-key error when no client can be built, and otherwise returns the translated outcome of a 20-per-page request for the query |
| Unsplash.MapPhotos | src/lib/unsplash.ts:140-148 | one photo per API photo, in the same order, each projected onto id, the three kept URLs and the alt text |
| Unsplash.ToPhoto | src/lib/unsplash.ts:141-147 | the editor's photo keeps the API photo's id, alt text and thumb, small and regular URLs |
| Unsplash.TryBody | src/lib/unsplash.ts:122-153 | the request body succeeds exactly when the response resolved with no errors and a body, keeping the total and the number of results; a rejected request fails with what was thrown |
| Unsplash.TranslateError | src/lib/unsplash.ts:154-161 | an `Error` whose message includes 403 becomes the rate-limit error, anything else is rethrown unchanged, and the result never mentions 403 |
| Unsplash.LiveSearch | src/lib/unsplash.ts:122-161 | a live search succeeds exactly when the request body does, with its value, and never fails with an `Error` whose message mentions 403 |
| Unsplash.SuccessfulSearchMapsResults | src/lib/unsplash.ts:137-153 | a response with a body and no errors succeeds, keeping the length and order of the results and passing the total through |
| Unsplash.ProviderErrorsAreJoined | src/lib/unsplash.ts:129-158 | reported errors fail the search with the messages joined by ", ", replaced by the rate-limit message exactly when one of them mentions 403 |
| Unsplash.MissingResponseFails | src/lib/unsplash.ts:133-135 | a response with neither errors nor a body fails with the fixed message, untranslated |
| Unsplash.RejectionIsTranslated | src/lib/unsplash.ts:154-161 | a rejected request becomes the rate-limit error if it is an `Error` mentioning 403, and is rethrown unchanged otherwise |
| Unsplash.TranslateErrorIdempotent | src/lib/unsplash.ts:156-158 | translating an error twice equals translating it once |

## Left out

- The random source, SHA-256, `TextEncoder` and `btoa` are not modelled. The random bytes are parameters. SHA-256 followed by `btoa` is an uninterpreted function parameter, so only the base64url step is modelled.
- `window.location` (the redirect and the callback's query string) and `URL`/`URLSearchParams` serialisation are not modelled. The authorize URL is its base plus the ordered parameter list, and the callback's `code` and `state` are parameters.
- `fetch` and the token endpoint are not modelled. The outcome of the token request is a function of the request body. `response.text()` and `response.json()` are taken as already resolved, and a non-string `access_token` is not modelled.
- `JSON.stringify` and `JSON.parse` of the PKCE record are not modelled. Storage holds the record structurally, so a malformed stored record, and the throw it causes, are not modelled. `WellFormed` assumes other code does not write those two keys.
- The `unsplash-js` library is not modelled. A client is a value tagged with its credential, and the search outcome is a function parameter. Its HTTP behaviour is not part of this model.
- The 500 ms simulated delay in dummy mode is not modelled, since it is a timer. Asynchronous interleaving of concurrent searches and logins is not modelled either.
- `import.meta.env` is passed in as `AuthConfig` and `SearchConfig`.
- `src/lib/debounce.ts` and the type-only files are not part of this model.
- UnsplashAuth.RandomString models the modulo bias of `% 66` exactly but proves nothing about the distribution of the output.
- Unsplash.PoolUrl: the five fixed URLs are held as host, photo kind, timestamp and id parts (`Pool0` to `Pool4`). They concatenate to the same five literals the source lists.
- Unsplash.MapPhotos: `alt_description` is passed through as given; the API's other fields are dropped.
