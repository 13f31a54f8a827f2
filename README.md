# JEF wallet front end: gateway, session and route logic in Dafny

This project models the core of the JEF wallet web front end, a Next.js
application. The model covers these parts:

- **The `proxy.ts` gateway.** It guards every page with an encrypted session
  cookie and a per-module permission check.
- **The session library** (`lib/session.ts`, `lib/constant.ts`). The session
  cookie is a compact JWE (alg "dir", enc "A256GCM") sealed under a 32-byte
  key. The key is read once from the parameter store and then cached.
- **The fixed-window rate limiter** (`lib/rateLimiter.ts`). Every API route
  consults it first.
- **The API route handlers.** They validate sessions and entity/module
  pairs, read login, sender and account details, list accounts, ledgers and
  transactions, and queue ledger and transaction creations. Each one does
  this through a Lambda invocation and turns the outcome into a JSON reply.
- **The client helpers that compute something.** These are:
  - the module dialog's list building and its subdomain test;
  - the breadcrumb's path labels and shortening;
  - the header title;
  - the module-name pill;
  - the activity page's normalisation and inflow/outflow split;
  - the transfer form's amount filter, submit check and submit.

### How the model is organised

- **One module per source file.** Each module is written in the form the code
  takes:
  - expression-style code becomes functions and lemmas;
  - code that keeps state across calls becomes a class whose methods change
    its fields. These are the key caches, the module-number cache, the
    limiter's counters and the transfer form.
  - Each method is proved against a function of the old state, and the
    properties are proved about that function.
- **Shared modules.**
  - `Js` models the JavaScript values the handlers inspect: truthiness,
    `typeof`, `String()`, `Number()`, property access.
  - `Text` models the string routines: `trim`, `split`, `join`, ASCII case
    and decimal digits.
  - `Lists` holds `filter`, `map`, deduplication and a stable sort.
  - `Words` holds the title-casing rewrites.
  - `Http` holds replies, Lambda outcomes and parameter-store lookups.
- **What becomes a parameter.**
  - Library routines become fields of a `Js.Lib` record that every function
    receives: `JSON.parse`, `JSON.stringify`, number parsing and printing,
    base64, URI coding, `new URL` and `localeCompare`.
  - The Lambda service, the parameter store, the cookie jar and the clock
    become inputs.
  - The cipher is a pair of seal/open functions. An `Authenticated`
    hypothesis states the round trip.

## Model

| member | source | states |
|---|---|---|
| Js.Coalesce | components/shared/ModuleName.tsx:23 | `a ?? b` is nullish only when the fallback is |
| Js.Or | app/api/shared/validate-session/route.ts:81-86 | `a \|\| b` is truthy exactly when one of the operands is |
| Js.AsStr | app/api/shared/get-login-details/route.ts:19-21 | the helper `asStr` yields trimmed text, the trimmed string itself for a string and "" otherwise |
| Js.SafeObj | app/api/shared/get-allowed-modules-by-entity-number/route.ts:36-38 | `safeObj` always yields an object, and an object input unchanged |
| Js.JsString | app/api/shared/validate-session/route.ts:160-162 | `String(v)` gives a string back unchanged |
| Js.ToNumber | app/transactions/page.tsx:40-43 | `Number(v)` of a number is that number |
| Js.Truncate | components/shared/ModuleBreadcrumb.tsx:86 | `Math.trunc` drops the fraction toward zero on either sign |
| Js.Floor | app/api/shared/validate-session/route.ts:53-65 | `Math.floor` is the largest integer not above its argument |
| Js.CeilDiv | lib/rateLimiter.ts:24 | `Math.ceil(a / b)` is the least q with a <= q*b |
| Text.Trim | components/shared/ModuleBreadcrumb.tsx:52-54 | `trim()` leaves no white space at either end, never lengthens, and is empty exactly for blank text |
| Text.TrimKeepsAbsent | components/shared/ModuleBreadcrumb.tsx:52-54 | trimming never introduces a character |
| Text.TrimIdempotent | components/shared/ModuleBreadcrumb.tsx:52-54 | trimming twice is trimming once |
| Text.Split | app/transactions/page.tsx:53 | `split(sep)` yields at least one part and no part holds the separator |
| Text.SplitFirstPart | components/shared/ModuleName.tsx:21-23 | the first part is the text up to the first separator |
| Text.JoinSplit | app/transactions/page.tsx:53 | joining the parts of a split with its separator gives the text back |
| Text.SplitJoin | app/create-payment/page.tsx:33 | splitting a join by a separator no part holds gives the parts back |
| Text.NonEmpty | components/shared/HeaderNavbar.tsx:25 | `filter(Boolean)` on strings keeps exactly the non-empty ones |
| Text.NonEmptyAppend | components/shared/ModuleBreadcrumb.tsx:95 | a non-empty last string survives `filter(Boolean)` as the last entry |
| Text.Lower | components/shared/ModulesDialog.tsx:55 | `toLowerCase()` maps each character on its own and keeps the length |
| Text.LowerOfLowercase | components/shared/ModulesDialog.tsx:55 | text without capitals is its own lower case |
| Text.NatToString | app/api/shared/validate-session/route.ts:132 | `String(n)` of a natural number is decimal digits without a leading zero |
| Text.NatToStringRoundTrip | app/api/shared/validate-session/route.ts:132 | reading back the printed digits gives the number |
| Text.IntToString | app/api/shared/validate-session/route.ts:132 | `String(i)` of a non-negative integer is decimal digits reading back as `i`; of a negative one, a minus sign and the digits of `-i` |
| Lists.Filter | app/create-payment/page.tsx:400 | `filter(p)` keeps exactly the entries that pass and never lengthens the list |
| Lists.FilterAppend | app/create-payment/page.tsx:400 | filtering a concatenation filters each part |
| Lists.FilterAll | app/api/shared/get-allowed-modules-by-entity-number/route.ts:94 | filtering a list whose entries all pass keeps it whole |
| Lists.FilterSelects | components/shared/ModuleBreadcrumb.tsx:136 | `filter` selects the passing entries, so it keeps their order |
| Lists.Map | components/shared/ModuleBreadcrumb.tsx:135 | `map(f)` keeps the length and maps entry by entry |
| Lists.MapImage | components/shared/ModuleBreadcrumb.tsx:135 | the mapped list holds the images of the entries and nothing else |
| Lists.FilterSplitsSum | app/transactions/page.tsx:331-338 | summing the entries that pass and those that do not gives the whole sum |
| Lists.Dedup | components/shared/ModulesDialog.tsx:64-74 | deduplication by key keeps one entry per new key, and the kept keys are distinct |
| Lists.DedupStep | components/shared/ModulesDialog.tsx:68-71 | the head is kept exactly when its key has not been seen |
| Lists.DedupIsSubsequence | components/shared/ModulesDialog.tsx:64-74 | deduplication keeps entries in their order |
| Lists.DedupKeepsFirst | components/shared/ModulesDialog.tsx:68-71 | of entries sharing a key, the first one is kept |
| Lists.DedupOfDistinct | components/shared/ModulesDialog.tsx:64-74 | a list with distinct, unseen keys comes back unchanged |
| Lists.DedupIdempotent | components/shared/ModulesDialog.tsx:64-74 | deduplicating twice is deduplicating once |
| Lists.PermutationKeepsDistinct | components/shared/ModulesDialog.tsx:76-84 | reordering a list with distinct keys keeps them distinct |
| Lists.Insert | components/shared/ModulesDialog.tsx:76-84 | inserting adds exactly the one entry |
| Lists.Sort | components/shared/ModulesDialog.tsx:76-84 | `sort(cmp)` returns a permutation of the list |
| Lists.InsertSorted | components/shared/ModulesDialog.tsx:76-84 | inserting into a sorted list keeps it sorted under a total preorder |
| Lists.SortSorted | components/shared/ModulesDialog.tsx:76-84 | the sorted list is ordered by the comparator whenever it is a total preorder |
| Words.DropRun | components/shared/HeaderNavbar.tsx:31 | the leading run of class characters is removed and nothing else |
| Words.ReplaceRuns | components/shared/HeaderNavbar.tsx:31 | `replace(/[-_]+/g, " ")` never lengthens, empties only empty text, keeps only spaces and the input's characters outside the class, and keeps a first character outside the class; the lemmas below tie it to a per-character reference |
| Words.ReplaceRunsNoDoubles | components/shared/ModuleBreadcrumb.tsx:57-61 | no two neighbouring characters of the result are in the class, so `replace(/\s+/g, " ")` leaves no doubled white space |
| Words.ReplaceRunsIsCollapse | components/shared/HeaderNavbar.tsx:31 | the run replacement equals the one-character-at-a-time reference `CollapseFrom`: a class character becomes a space unless the character before it was in the class, every other character is kept |
| Words.CollapseFrom | components/shared/HeaderNavbar.tsx:31 | the per-character reference for run replacement; `ReplaceRunsIsCollapse` ties them |
| Words.CollapseAfterRun | components/shared/HeaderNavbar.tsx:31 | inside a run, the rest of the run adds nothing to the reference collapse |
| Words.CollapseAtKept | components/shared/HeaderNavbar.tsx:31 | in the reference collapse a character outside the class is kept and splits the text into two independent halves |
| Words.ReplaceRunsAtKept | components/shared/HeaderNavbar.tsx:31 | a character outside the class is kept, and the text on either side of it is replaced on its own |
| Words.ReplaceRunsOfRun | components/shared/HeaderNavbar.tsx:31 | a whole run of class characters, however long, becomes exactly one space |
| Words.ReplaceRunsKeeps | components/shared/HeaderNavbar.tsx:31 | the characters outside the class, other than spaces, come out exactly as they went in and in the same order |
| Words.CollapseKeeps | components/shared/HeaderNavbar.tsx:31 | the reference collapse keeps the characters outside the class, other than spaces, in order |
| Words.TrimKeeps | components/shared/ModuleBreadcrumb.tsx:57 | `trim()` removes only white space: every other character survives, in order |
| Words.ReplaceRunsExample | components/shared/HeaderNavbar.tsx:31 | "log-in" becomes "log in" |
| Words.CapitalizeWords | components/shared/ModuleBreadcrumb.tsx:56-65 | capitalising the parts between separators keeps the length and changes only part starts |
| Words.SplitJoinPlain | components/shared/ModuleBreadcrumb.tsx:56-65 | split, capitalise the later parts, join is the character-wise definition |
| Words.SplitJoinCapitalized | components/shared/ModuleBreadcrumb.tsx:56-65 | split, capitalise every part, join is the character-wise definition |
| Words.CapitalizeWordsIdempotent | components/shared/ModuleBreadcrumb.tsx:56-65 | capitalising twice is capitalising once |
| Words.UpperWordStarts | components/shared/HeaderNavbar.tsx:32 | `replace(/\b\w/g, toUpperCase)` keeps the length and upper-cases exactly the word starts |
| Words.UpperWordStartsKeepsMarks | components/shared/HeaderNavbar.tsx:32 | `\b\w` upper-casing changes only letters: white space, dashes and underscores stay where they were |
| Words.UpperWordStartsExample | components/shared/HeaderNavbar.tsx:32 | `\b\w` upper-cases both word starts of "log in", giving "Log In" |
| Http.TooManyRequests | app/api/shared/validate-session/route.ts:127-133 | the rate-limited answer has status 429, a message and the `Retry-After` header |
| Http.Json | app/api/shared/validate-session/route.ts:86 | a JSON reply carries the given status and body and no extra header |
| Http.StatusShort | app/api/accounts/get-all/route.ts:60-61 | the status a response is built with is read as an unsigned 16-bit integer, 0 for a non-finite number |
| Http.ResponseStatus | app/api/accounts/get-all/route.ts:60-61 | a JSON response is built exactly when its status is in 200..599 other than the null-body 204, 205 and 304, and then with that status; otherwise the constructor throws |
| Http.StatusErrorMessage | app/api/accounts/get-all/route.ts:60-61 | a refused null-body status throws the TypeError's message, any other refused status the RangeError's |
| Http.ResponseStatusKeepsValid | app/api/shared/validate-session/route.ts:86 | an integral status in 200..599 other than 204, 205 and 304 is used as given |
| Http.ResponseStatusRejects | app/api/shared/validate-session/route.ts:86 | integral statuses outside 200..599 make the constructor throw the RangeError |
| Http.NullBodyStatusRejected | app/api/accounts/get-all/route.ts:60-61 | 204, 205 and 304 make the JSON response constructor throw the TypeError, since such a response may not have a body |
| RateLimiter.ClientKey | lib/rateLimiter.ts:10-14 | the client key is never empty |
| RateLimiter.ClientKeyFromForwarded | lib/rateLimiter.ts:10-11 | a non-blank first `x-forwarded-for` element decides the key: the text before the first comma, trimmed, holding no comma |
| RateLimiter.ClientKeyAnonymous | lib/rateLimiter.ts:10-14 | with no usable forwarded element and no ip every client shares the "anonymous" bucket |
| RateLimiter.NextWindow | lib/rateLimiter.ts:4-7 | after a consume the key's window is still open and has at least one point spent |
| RateLimiter.Verdict | lib/rateLimiter.ts:4-7 | a consume is admitted exactly while at most 2 points are spent, reports the points left, and a rejection waits no longer than the window has left |
| RateLimiter.Shape | lib/rateLimiter.ts:18-29 | `allowed` exactly on admission with the remaining points and retry 0; otherwise 0 remaining, retry `ceil(ms/1000)` on a rejection and none on a store failure |
| RateLimiter.RetryAfterPositive | lib/rateLimiter.ts:24 | a rejection always asks for at least one second |
| RateLimiter.Run | lib/rateLimiter.ts:17 | consecutive consumes answer once each |
| RateLimiter.AdmissionsWithinWindow | lib/rateLimiter.ts:4-7 | calls made before an open window ends are admitted no more often than the points it has left |
| RateLimiter.AtMostPointsPerWindow | lib/rateLimiter.ts:4-7 | a fresh one-second window admits at most 2 calls |
| RateLimiter.Limiter.constructor | lib/rateLimiter.ts:4-7 | the limiter starts with no windows |
| RateLimiter.Limiter.Consume | lib/rateLimiter.ts:17 | a consume advances only its own key's window and answers by that window |
| RateLimiter.Limiter.Apply | lib/rateLimiter.ts:9-31 | `applyRateLimit` consumes one point under the request's client key and shapes the verdict |
| Session.EnvStr | lib/session.ts:14-16 | an environment value is read trimmed |
| Session.Decode32ByteKey | lib/session.ts:23-47 | a blank secret fails as empty; otherwise a 32-byte base64url reading is the key, else a 32-byte base64 reading is, else the error carries the base64url length (or none); any key is 32 bytes |
| Session.FetchKey | lib/session.ts:52-67 | a missing parameter name, a failing store and an absent or blank parameter value are each their own error; a non-blank value is decoded as `Decode32ByteKey` says; any key is 32 bytes |
| Session.FetchKeyFromStore | lib/session.ts:53-66 | a non-blank stored value is decoded as the key |
| Session.KeyAfter | lib/session.ts:49-75 | what the cache holds after a lookup: a cached key stays; otherwise a key exactly when the lookup succeeded |
| Session.CookieValue | lib/session.ts:140 | the value of a cookie of the request, None when the request has none by that name |
| Session.SessionCookie | lib/session.ts:126-134 | the `jef_jwe_session` cookie `createSession` writes: http-only, `lax`, path `/`, secure and with the configured domain outside development, expiring after the session lifetime |
| Session.JwtDecrypt | lib/session.ts:98 | decrypted claims are what the key opens and pass the time checks within the ten-second tolerance |
| Session.ClaimText | lib/session.ts:100-101 | a claim is read trimmed, a string claim as its trimmed text and a falsy claim as "" |
| Session.PayloadOf | lib/session.ts:100-104 | a payload exists exactly when both numbers read non-empty, and then holds them |
| Session.DecryptWith | lib/session.ts:92-114 | a blank token or a failed key lookup gives no session; a session's numbers are trimmed |
| Session.EncryptClaims | lib/session.ts:82-90 | the sealed claims are the payload plus `iat` now and `exp` seven days later, in seconds |
| Session.CreateThenDecrypt | lib/session.ts:117-123 | a token created for two non-blank numbers decrypts to those numbers until seven days have passed |
| Session.ExpiredTokenRejected | lib/session.ts:88 | eleven seconds after the seven days the same token no longer decrypts |
| Session.DomainOption | lib/session.ts:126 | the cookie domain is set exactly in production with a configured domain |
| Session.DeleteMatchesCreate | lib/session.ts:128-135 | deletion writes the cookie creation wrote, with the same name, path, domain and flags, empty and expired |
| Session.SessionKeys.constructor | lib/session.ts:49-50 | the key cache starts empty |
| Session.SessionKeys.GetSecretKey | lib/session.ts:49-75 | a cached key is returned without a lookup; otherwise the store is asked once and only a good key is cached |
| Session.SessionKeys.Decrypt | lib/session.ts:92-114 | a blank token is refused before the key is looked at and leaves the cache alone; otherwise the answer is the decryption under the key lookup's outcome and the cache holds the resolved key |
| Session.SessionKeys.CreateSession | lib/session.ts:117-136 | a failed key lookup is rethrown; otherwise the sealed claims are written as the session cookie; the cache then holds the key the lookup resolved to, or nothing after a failure |
| Session.SessionKeys.ReadSession | lib/session.ts:138-142 | the session is the decryption of the `jef_jwe_session` cookie; the cache is untouched when that cookie is blank, else holds the key the lookup resolved to |
| Session.KeyIsFetchedOnce | lib/session.ts:50-52 | after a successful lookup a second one returns the same key without asking the store; after a failure it asks again |
| Constant.CookieText | lib/constant.ts:94 | a cookie value is read trimmed |
| Constant.TokenFromCookies | lib/constant.ts:93-96 | the token is the first non-blank of the plain, `__Secure-` and `__Host-` cookies, and "" exactly when all three are blank |
| Constant.RecordOf | lib/constant.ts:104-114 | a record exists exactly when both string numbers are non-empty; the session number is kept only when non-empty |
| Constant.ReadWithKey | lib/constant.ts:98-103 | no token or no key gives no session |
| Constant.NumericEntityClaimDiffers | lib/constant.ts:106 | a numeric entity claim is a session for lib/session.ts and none for this reader |
| Constant.GettersOfRead | lib/constant.ts:125-138 | each getter answers "" exactly when there is no session and trimmed text otherwise |
| Constant.ConstantKeys.constructor | lib/constant.ts:23 | the key cache starts empty |
| Constant.ConstantKeys.GetSecretKey | lib/constant.ts:50-83 | a cached key is returned as is; otherwise one lookup, and null with the cache cleared on any failure |
| Constant.ConstantKeys.ReadSessionPayload | lib/constant.ts:89-123 | no token means no key lookup and no session; otherwise the read under the key the cache resolves to, and the cache then holds that key |
| Constant.CachedAfterRead | lib/constant.ts:89-123 | the cache after a read: unchanged without a token, else what `Session.KeyAfter` gives |
| Constant.ConstantKeys.GetEntityNumber | lib/constant.ts:125-128 | the entity number of the session read under the key the cache resolves to ("" without a token or session); the cache afterwards is unchanged without a token, else holds that key |
| Constant.ConstantKeys.GetEmployeeNumber | lib/constant.ts:130-133 | the employee number of the session read under the key the cache resolves to ("" without a token or session); the cache afterwards is unchanged without a token, else holds that key |
| Constant.ConstantKeys.GetSessionNumber | lib/constant.ts:135-138 | the session number of the session read under the key the cache resolves to ("" without a token, session or claim); the cache afterwards is unchanged without a token, else holds that key |
| Gateway.ModuleNumber | proxy.ts:19 | the configured module number is read trimmed |
| Gateway.CookieText | proxy.ts:51-53 | a cookie value is read trimmed |
| Gateway.GetToken | proxy.ts:49-56 | the token is the first non-blank of the plain, `__Secure-` and `__Host-` session cookies, and "" exactly when all three are blank |
| Gateway.ReadBody | proxy.ts:37-47 | the validator's body is always an object or null, and an answer without `body` is read as itself |
| Gateway.ReadBodyUnwrapsJsonBody | proxy.ts:42-44 | an object sent as the JSON text of `body` comes back unchanged |
| Gateway.ReadBodyObjectCases | proxy.ts:40-41 | an object `body` is the payload; an object without `body` is its own payload |
| Gateway.ReadBodyKeepsRawText | proxy.ts:42-44 | a `body` text that is not JSON for an object is kept verbatim under `_raw_body` |
| Gateway.TruthyIsNotTrue | proxy.ts:79 | only the boolean `true` in `is_allowed` or `is_valid` grants access, not truthy look-alikes |
| Gateway.EntityOf | proxy.ts:113-119 | the entity number read from the session is trimmed |
| Gateway.AccessDeniedPathPasses | proxy.ts:100-103 | the access-denied page and everything below it pass before any cookie, decryption or Lambda call |
| Gateway.NoSessionRedirectsToLogin | proxy.ts:105-124 | no token, or a session without an entity number, redirects to login with the request URL as `return_to`, and the validator is never invoked |
| Gateway.PassesExactlyWhenAllowed | proxy.ts:97-147 | a request passes exactly when it is for access-denied or it has a session entity, a configured module and a validator answer without `FunctionError` that allows it |
| Gateway.Proxy | proxy.ts:97-147 | the middleware's decision; `PassesExactlyWhenAllowed` and the lemmas beside it state it |
| Gateway.MissingModuleNumberDenies | proxy.ts:126-129 | with no module number configured a signed-in request is sent to access-denied |
| Gateway.ValidatorFailureDenies | proxy.ts:132-146 | a Lambda `FunctionError` or a thrown invocation sends a signed-in request to access-denied |
| ProxyRoute.Base64UrlKey | app/api/shared/proxy/route.ts:23-30 | the key is the base64url reading of the trimmed secret, present exactly when that secret is non-blank and decodes to 32 bytes |
| ProxyRoute.ToStr | app/api/shared/proxy/route.ts:14-21 | a non-blank string is trimmed, a number is rendered by `String`, anything else is undefined |
| ProxyRoute.Answer | app/api/shared/proxy/route.ts:32-43 | a missing module configuration is reported before the cookie is looked at, then a missing cookie |
| ProxyRoute.ValidExactlyWhenModuleMatches | app/api/shared/proxy/route.ts:32-62 | `is_valid` is true exactly when module and cookie are present, the token decrypts, and its `module_number` equals the configured one |
| ProxyRoute.NumericModuleClaim | app/api/shared/proxy/route.ts:19 | a numeric `module_number` claim matches when its rendering is the configured text |
| SessionValidate.DigitsOnlyCases | app/api/shared/session/validate/route.ts:131-133 | every decimal rendering of a number is digits only; empty text, a leading space, a sign and a parameter path are not |
| SessionValidate.LookupValue | app/api/shared/session/validate/route.ts:148-159 | the parameter value is read trimmed, "" when the lookup throws |
| SessionValidate.ResolveModuleNumber | app/api/shared/session/validate/route.ts:137-168 | the module number is "11", the invalid-digits marker or digits: "11" for an empty source or an empty lookup, the source itself when it is digits, the looked-up value when that is digits |
| SessionValidate.Resp | app/api/shared/session/validate/route.ts:49-75 | `is_valid` is the text "true" or "false" and every answer carries `cache-control: no-store` |
| SessionValidate.ReadVerdict | app/api/shared/session/validate/route.ts:89-129 | a `FunctionError`, an empty payload or non-JSON text is a refusal; otherwise `is_valid` is the truthiness of the final object's `is_valid` |
| SessionValidate.VerdictUnwrapsStringBody | app/api/shared/session/validate/route.ts:109-120 | a reply whose `body` is JSON text for an object is judged by that inner object |
| SessionValidate.StatusChain | app/api/shared/session/validate/route.ts:170-233 | the status is 429 exactly when rate-limited, then 400 for a non-digit module, 401 without a cookie or a complete session, 500 when the invocation throws, 200 exactly when the validator says valid, else 403 |
| SessionValidate.Answer | app/api/shared/session/validate/route.ts:170-233 | the reply of the route handler; `StatusChain` states it |
| SessionValidate.PayloadOnlyWhenValidated | app/api/shared/session/validate/route.ts:214-231 | only 403 and 200 echo the session's trimmed numbers with an empty `session_number`; `is_valid` is "true" exactly on 200 |
| SessionValidate.ModuleNumberSource.constructor | app/api/shared/session/validate/route.ts:135 | no module-number lookup has started |
| SessionValidate.ModuleNumberSource.GetModuleNumber | app/api/shared/session/validate/route.ts:137-168 | a digit or empty source needs no lookup; any other source is looked up once, the answer cached for good, and resolved as `ResolveModuleNumber` says |
| SessionValidate.ModuleNumberSource.Get | app/api/shared/session/validate/route.ts:170-233 | a rate-limited request gets the whole 429 reply (fallback module, empty payload, `Retry-After`) without resolving the module; otherwise the answer follows the resolved module, the cookie and the session |
| SessionValidate.FailedLookupSticks | app/api/shared/session/validate/route.ts:146-165 | once a lookup came back empty, later calls answer "11" without asking the store again |
| ValidateSession.JwtSecret | app/api/shared/validate-session/route.ts:43-47 | the signing secret is the trimmed, non-empty environment text, absent exactly when that is unset or blank |
| ValidateSession.ModuleNumber | app/api/shared/validate-session/route.ts:136 | the module number is "11" when unset or empty, else the trimmed setting |
| ValidateSession.Phrase | app/api/shared/validate-session/route.ts:60-66 | an elapsed phrase starts with the count and the unit |
| ValidateSession.Humanize | app/api/shared/validate-session/route.ts:49-52 | an issue time that is not a finite positive number gives no elapsed text |
| ValidateSession.FutureIatIsJustNow | app/api/shared/validate-session/route.ts:53-57 | an issue time in the future or within the current second reads "just now" |
| ValidateSession.ElapsedBuckets | app/api/shared/validate-session/route.ts:57-66 | under a minute is "just now", then whole minutes below 60, whole hours below 24, else whole days |
| ValidateSession.SingularExactlyAtOne | app/api/shared/validate-session/route.ts:60-66 | the unit is plural exactly when the count is not 1 |
| ValidateSession.Resp | app/api/shared/validate-session/route.ts:69-87 | `is_valid` is "true" exactly for a valid answer and "false" otherwise |
| ValidateSession.Claim | app/api/shared/validate-session/route.ts:160-162 | a claim is read trimmed, "" when missing |
| ValidateSession.ReadVerdict | app/api/shared/validate-session/route.ts:101-124 | a `FunctionError`, an empty payload or non-JSON text is a refusal; otherwise `is_valid` is the truthiness of the parsed `is_valid`, with no `body` unwrapping |
| ValidateSession.AfterVerify | app/api/shared/validate-session/route.ts:155-191 | past a verified token: 401 for a missing number, 500 when the invocation throws, else 200 or 403 by the verdict; every answer but the 500 echoes the claims and the elapsed time |
| ValidateSession.StatusBeforeVerify | app/api/shared/validate-session/route.ts:126-180 | 429 exactly when rate-limited, then 401 without a cookie (before the secret is read), 500 for a blank secret, 401 with no payload for a token that does not verify |
| ValidateSession.StatusAfterVerify | app/api/shared/validate-session/route.ts:155-191 | once the token verifies the answer is `AfterVerify`'s, with the configured module number |
| ValidateSession.Answer | app/api/shared/validate-session/route.ts:126-191 | the reply of the route handler; `StatusBeforeVerify` and `StatusAfterVerify` states it |
| SessionRead.ToStr | app/api/shared/session/read/route.ts:23-29 | only a non-blank string counts, trimmed |
| SessionRead.Answer | app/api/shared/session/read/route.ts:31-37 | `exists` holds exactly when a session is returned; a missing cookie answers "No session cookie" |
| SessionRead.ExistsExactlyWhenDecrypted | app/api/shared/session/read/route.ts:31-54 | `exists` holds exactly when there is a token, the key decodes and the token decrypts in date, even without numbers; the numbers are then the claims read through `toStr` |
| SessionRead.NumberClaimIsUndefined | app/api/shared/session/read/route.ts:23-29 | a numeric claim is dropped here, though the proxy probe's `toStr` keeps it |
| ValidateEntity.UnwrapLambdaBody | app/api/shared/proxy/validate-entity-number-and-module-number/route.ts:33-43 | an object with a string `body` yields that text parsed, or `{_raw: body}` when it does not parse or is null; an object `body` is returned; anything else comes back as it is |
| ValidateEntity.DataFallbacks | app/api/shared/proxy/validate-entity-number-and-module-number/route.ts:84-86 | an empty reply is `{}` and a reply that is not JSON is kept as `{_raw: text}` |
| ValidateEntity.StatusAndOk | app/api/shared/proxy/validate-entity-number-and-module-number/route.ts:45-106 | 429 exactly when rate-limited, 400 unless both query parameters are non-blank, 500 exactly when the invocation throws, otherwise 200 with `ok` exactly for a 2xx status without `FunctionError` |
| ValidateEntity.Answer | app/api/shared/proxy/validate-entity-number-and-module-number/route.ts:45-106 | the reply of the route handler; `StatusAndOk` states it |
| AllowedModules.Objects | app/api/shared/get-allowed-modules-by-entity-number/route.ts:94 | the filter keeps exactly the object entries, in order |
| AllowedModules.ObjectsOfObjects | app/api/shared/get-allowed-modules-by-entity-number/route.ts:94 | a list of objects passes the filter unchanged |
| AllowedModules.ModuleOf | app/api/shared/get-allowed-modules-by-entity-number/route.ts:95-100 | every field of a listed module is trimmed text |
| AllowedModules.Normalize | app/api/shared/get-allowed-modules-by-entity-number/route.ts:87-103 | `exists` is the truthiness of the reply's `exists`; a non-array list is empty; otherwise one reshaped module per object entry, in order; message and server time trimmed |
| AllowedModules.StatusMapping | app/api/shared/get-allowed-modules-by-entity-number/route.ts:105-153 | 429 exactly when rate-limited; 401 with the empty record for a blank entity; 500 with no modules when the invocation throws; 502 with `exists` false but the modules kept on a `FunctionError`; else 200 with the normalised reply |
| AllowedModules.Answer | app/api/shared/get-allowed-modules-by-entity-number/route.ts:105-153 | the reply of the route handler; `StatusMapping` states it |
| AllowedModules.UnwrappedReplyIsNormalised | app/api/shared/get-allowed-modules-by-entity-number/route.ts:48-58 | a reply whose `body` is JSON text is normalised from the inner object |
| LoginDetails.DecodePayload | app/api/shared/get-login-details/route.ts:31-35 | a reply that is not JSON, or is JSON `null`, becomes `{_non_json_payload: text}`; any other JSON value is kept |
| LoginDetails.UnwrapCommon | app/api/shared/get-login-details/route.ts:37-54 | a non-object is kept; a string `body` is parsed (`{_non_json_body, _raw}` when that fails); an object `body` is taken; else an object `response`; else the reply itself |
| LoginDetails.FirstText | app/api/shared/get-login-details/route.ts:115-119 | the first non-blank of two fields, trimmed |
| LoginDetails.EntityObject | app/api/shared/get-login-details/route.ts:106-113 | an object `entity` is where the entity fields are read, otherwise the reply itself |
| LoginDetails.AlwaysOkOnceSignedIn | app/api/shared/get-login-details/route.ts:76-129 | 429 exactly when rate-limited; 401 with empty details when a number is missing; otherwise 200 unless an invocation throws, whatever `FunctionError` says |
| LoginDetails.Answer | app/api/shared/get-login-details/route.ts:76-129 | the reply of the route handler; `AlwaysOkOnceSignedIn` states it |
| LoginDetails.UserFromPlainReply | app/api/shared/get-login-details/route.ts:118-119 | a user reply `{"user": …}` names the user |
| LoginDetails.BusinessNameWins | app/api/shared/get-login-details/route.ts:115 | a non-blank `business_name` wins over `name` |
| SenderDetails.SafeJsonParse | app/api/sender/get-sender-details/route.ts:25-33 | blank text is `{}`, text that is not JSON is `{raw: trimmed text}`, otherwise the parsed value |
| SenderDetails.UnwrapBody | app/api/sender/get-sender-details/route.ts:35-39 | the result is always an object: the `body` (parsed when it is text) when that is an object, else the outer object |
| SenderDetails.PickAccount | app/api/sender/get-sender-details/route.ts:41-47 | account fields are trimmed strings, both "" when there is no `account` object |
| SenderDetails.PickUser | app/api/sender/get-sender-details/route.ts:49-63 | the employee number comes from a `user` object when non-blank, else the fallback; the name from a `user` object, else from a `user` string, else "" |
| SenderDetails.StatusAndFallbacks | app/api/sender/get-sender-details/route.ts:84-134 | 429 exactly when rate-limited, 401 exactly for a blank cookie number, 502 exactly when either Lambda reports a `FunctionError`; every non-200 answer is all-empty; a 200 always has both numbers, the cookie's when the reply leaves them blank |
| SenderDetails.Answer | app/api/sender/get-sender-details/route.ts:84-134 | the reply of the route handler; `StatusAndFallbacks` states it |
| AccountByNumber.Selected | app/api/accounts/get-by-account-number/route.ts:37-39 | `normalize` reads an object: an object-typed `body`, else the outer object, else `{}` |
| AccountByNumber.Normalize | app/api/accounts/get-by-account-number/route.ts:30-58 | `exists` only from a boolean `true`; a string message is kept, otherwise the default follows `exists`; account fields are trimmed strings or "" |
| AccountByNumber.StringBodyParsedInPlace | app/api/accounts/get-by-account-number/route.ts:86-91 | a string `body` that parses is replaced by the parsed value |
| AccountByNumber.ApiGatewayReplyUnwrapped | app/api/accounts/get-by-account-number/route.ts:86-104 | a reply `{"statusCode", "body": "<json>"}` is normalised from its inner object |
| AccountByNumber.StatusMapping | app/api/accounts/get-by-account-number/route.ts:60-111 | 429, 401 for a blank entity, 500 on a throw, 502 exactly on `FunctionError`, else 200 with the normalised reply; only a 200 reports `exists` |
| AccountByNumber.Answer | app/api/accounts/get-by-account-number/route.ts:60-111 | the reply of the route handler; `StatusMapping` states it |
| AccountsAll.Data | app/api/accounts/get-all/route.ts:45-50 | an empty reply is null and a reply that is not JSON is `{raw: text}` |
| AccountsAll.LambdaHeaders | app/api/accounts/get-all/route.ts:62-66 | the `x-lambda-function-error` header is present exactly on a `FunctionError` |
| AccountsAll.StatusMapping | app/api/accounts/get-all/route.ts:12-92 | a proxy-shaped reply is relayed with its own `statusCode` as the status (when in 200..599 other than 204/205/304) and its parsed body, a `FunctionError` only adding a header; a refused `statusCode` is caught as 500 with the constructor's message; any other reply gets 502 exactly on a `FunctionError`, else 200; a throw gives 500 |
| AccountsAll.Answer | app/api/accounts/get-all/route.ts:12-92 | the reply of the route handler; `StatusMapping` states it |
| AccountsAll.NullBodyProxyStatusIs500 | app/api/accounts/get-all/route.ts:52-91 | a proxy reply with `statusCode` 204 is answered 500 `{ok: false}` with the TypeError's message |
| AccountsAll.ProxyStatusWinsOverFunctionError | app/api/accounts/get-all/route.ts:52-68 | a proxy reply with `statusCode` 404 is answered 404 even with a `FunctionError` |
| LedgerCreate.AsNum | app/api/ledgers/sqs-create-one/route.ts:15-24 | a (finite) number is kept; a blank string is null; a non-blank string gives its finite reading, or null when it is not finite; anything else is null |
| LedgerCreate.Read | app/api/ledgers/sqs-create-one/route.ts:49-57 | the fields are the body's strings trimmed and the amount through `asNum` |
| LedgerCreate.FirstFailure | app/api/ledgers/sqs-create-one/route.ts:59-85 | no failure is reported exactly when every requirement passes |
| LedgerCreate.FirstFailureIs | app/api/ledgers/sqs-create-one/route.ts:59-85 | when requirement i is the first to fail, its message is the one reported |
| LedgerCreate.ValidatePassesAllChecks | app/api/ledgers/sqs-create-one/route.ts:59-85 | the guard clauses pass exactly when all nine requirements, listed on their own, hold |
| LedgerCreate.ValidateReportsFirstFailure | app/api/ledgers/sqs-create-one/route.ts:59-85 | the guard clauses report exactly the first failing requirement |
| LedgerCreate.Validate | app/api/ledgers/sqs-create-one/route.ts:59-85 | the guard clauses; `ValidatePassesAllChecks` and `ValidateReportsFirstFailure` state them |
| LedgerCreate.PayloadValue | app/api/ledgers/sqs-create-one/route.ts:87-97 | the Lambda payload has exactly the nine fields |
| LedgerCreate.ValidatedFieldsAreTheInputs | app/api/ledgers/sqs-create-one/route.ts:87-97 | a validated payload holds the non-blank fields as read and the amount `asNum` gave |
| LedgerCreate.HttpStatus | app/api/ledgers/sqs-create-one/route.ts:116 | the status is 200 exactly without `FunctionError` and with a 2xx `StatusCode`, else 502 |
| LedgerCreate.StatusBeforeLambda | app/api/ledgers/sqs-create-one/route.ts:28-97 | 429 exactly when rate-limited; 400 exactly when a requirement fails, with the first failure's message; otherwise the Lambda's outcome decides |
| LedgerCreate.RelayStatus | app/api/ledgers/sqs-create-one/route.ts:99-131 | 500 when the invocation throws, else `httpStatus`, with `ok` exactly for 200 and the Lambda's reply as `response` |
| LedgerCreate.Relay | app/api/ledgers/sqs-create-one/route.ts:99-131 | the reply once the Lambda was invoked; `RelayStatus` states it |
| LedgerCreate.Answer | app/api/ledgers/sqs-create-one/route.ts:28-131 | the reply of `POST`; `StatusBeforeLambda` and `RelayStatus` state it |
| LedgerCreate.UnparsableBodyMissesCreator | app/api/ledgers/sqs-create-one/route.ts:42-60 | a request body that is not JSON fails with "Missing creator_account_number" |
| TransactionCreate.RemoveCommas | app/api/transactions/sqs-create-one/route.ts:20 | `replace(/,/g, "")` leaves no comma and every other character |
| TransactionCreate.AsNumAsWritten | app/api/transactions/sqs-create-one/route.ts:17-24 | as written: a number is kept, a string with its commas removed and trimmed is read when finite, else NaN |
| TransactionCreate.BlankAmountAcceptedAsWritten | app/api/transactions/sqs-create-one/route.ts:17-24 | as written, a blank amount or one of commas only reads as 0 and passes the amount guard |
| TransactionCreate.AsNum | app/api/transactions/sqs-create-one/route.ts:17-24 | corrected: a string that is blank once its commas are removed is NaN; otherwise as written |
| TransactionCreate.FiniteAmountIsGiven | app/api/transactions/sqs-create-one/route.ts:74-79 | a finite amount comes only from a number or a non-blank string holding one |
| TransactionCreate.Strings | app/api/transactions/sqs-create-one/route.ts:42-52 | the eight required fields, each the posted string trimmed |
| TransactionCreate.FirstMissing | app/api/transactions/sqs-create-one/route.ts:65-72 | no key is reported exactly when every required field is non-empty, and a reported key is a required one whose field is empty |
| TransactionCreate.PayloadValue | app/api/transactions/sqs-create-one/route.ts:42-52 | the payload has exactly the eight strings and the amount |
| TransactionCreate.EventCarriesPayload | app/api/transactions/sqs-create-one/route.ts:81-88 | a Lambda parsing the event's body reads back the payload, from a `POST /` that is not base64-encoded |
| TransactionCreate.MessageOr | app/api/transactions/sqs-create-one/route.ts:115 | a falsy message is reported as "OK" |
| TransactionCreate.ClassifyShapes | app/api/transactions/sqs-create-one/route.ts:99-131 | a reply with `statusCode` answers that status (200 when falsy, 502 with the constructor's message when outside 200..599 or 204/205/304) and `is_sent` exactly for 2xx; a reply with `is_sent` answers 200 or 502 by its truthiness; anything else is sent with 200 |
| TransactionCreate.IntegralStatusRelayed | app/api/transactions/sqs-create-one/route.ts:108-117 | a `statusCode` k in 200..599 other than 204/205/304 is answered with k, `is_sent` exactly for 2xx |
| TransactionCreate.NullBodyStatusIs502 | app/api/transactions/sqs-create-one/route.ts:108-137 | a `statusCode` of 204, 205 or 304 is answered 502 `is_sent: false` with the TypeError's message, or "Lambda invoke failed" when that is empty |
| TransactionCreate.Classify | app/api/transactions/sqs-create-one/route.ts:99-131 | the reply for the Lambda's output text; `ClassifyShapes` and `IntegralStatusRelayed` state its cases |
| TransactionCreate.Read | app/api/transactions/sqs-create-one/route.ts:42-52 | the posted record is the trimmed strings of `Strings` and the amount read by the corrected `AsNum` |
| TransactionCreate.ProblemOrder | app/api/transactions/sqs-create-one/route.ts:65-79 | a body passes exactly when every string field is present and the amount is finite; the first missing field in the `required` order is reported; a blank amount is reported once they are all present |
| TransactionCreate.BlankAmountPassesGuardAsWritten | app/api/transactions/sqs-create-one/route.ts:65-79 | with every string field present and the amount posted as "", the guards as written (amount read by `AsNumAsWritten`) find no problem, while the corrected reading reports "Missing/invalid: amount" |
| TransactionCreate.StatusOrder | app/api/transactions/sqs-create-one/route.ts:26-137 | 429 first, with `Retry-After` from the limiter, then 400 for invalid JSON, then 400 for the first problem; the Lambda is called exactly when none applies, and a throw is 502 |
| TransactionCreate.Answer | app/api/transactions/sqs-create-one/route.ts:26-137 | the reply of `POST`; `StatusOrder` states its order of checks |
| TransactionCreate.Request | app/api/transactions/sqs-create-one/route.ts:81-97 | the event sent to the Lambda, when one is; `StatusOrder` and `PayloadIsTheValidatedFields` state when and what |
| TransactionCreate.PayloadIsTheValidatedFields | app/api/transactions/sqs-create-one/route.ts:81-97 | what reaches the Lambda is the event around the eight trimmed strings and the finite amount |
| LedgersAll.DecodeApiGwBody | app/api/ledgers/get-all-by-account-number/route.ts:33-46 | a non-object gives no inner value; a non-string `body` is the inner value itself (`null` when absent); a string `body` is base64-decoded when flagged, then parsed when non-empty, and kept as the raw inner text |
| LedgersAll.LooksLikeProxy | app/api/ledgers/get-all-by-account-number/route.ts:91 | defined exactly for objects (`in` throws on anything else), and true exactly when `statusCode` is a number or `body` is present and defined |
| LedgersAll.LambdaStatus | app/api/ledgers/get-all-by-account-number/route.ts:97 | never NaN or 0; a non-zero numeric `statusCode` is kept |
| LedgersAll.Failed | app/api/ledgers/get-all-by-account-number/route.ts:108-113 | a throw is answered with 500 |
| LedgersAll.StatusChain | app/api/ledgers/get-all-by-account-number/route.ts:48-114 | 429, then 401 for a blank entity number, then 500 for a failed invoke; otherwise the Lambda's reply decides |
| LedgersAll.Answer | app/api/ledgers/get-all-by-account-number/route.ts:48-114 | the reply of the route handler; `StatusChain` states it |
| LedgersAll.RelayedCases | app/api/ledgers/get-all-by-account-number/route.ts:73-95 | an empty or non-JSON reply is 502 and takes precedence over a `FunctionError`, which is 502 carrying the reply; a non-proxy object is relayed with 200; a proxy object is unwrapped; a primitive makes `in` throw (500) |
| LedgersAll.UnwrappedStatus | app/api/ledgers/get-all-by-account-number/route.ts:97-107 | a proxy object with no inner value is 502 "Unexpected lambda body format."; otherwise the inner value is sent with the Lambda's status, or 500 with the constructor's message when that status is outside 200..599 or is 204/205/304 |
| LedgersAll.NullBodyStatusIs500 | app/api/ledgers/get-all-by-account-number/route.ts:97-112 | `{"statusCode": 204, "body": "<json>"}` (or 205, 304) is answered 500 with the TypeError's message |
| LedgersAll.ZeroStatusCodeMeans200 | app/api/ledgers/get-all-by-account-number/route.ts:97 | `{"statusCode": 0, "body": "<json>"}` is answered with 200 and the parsed body |
| LatestBalance.Zeroed | app/api/ledgers/get-latest-balance-by-account-number/route.ts:45-53 | the 401 and 500 record: `exists` false, the message, an empty `reference_date_name` and a zero `latest_balance` |
| LatestBalance.OutCases | app/api/ledgers/get-latest-balance-by-account-number/route.ts:64-71 | an empty, non-JSON or null reply becomes `{_raw: raw}`; a reply whose string `body` parses to something truthy is replaced by that parse; otherwise the reply is kept |
| LatestBalance.FalsyBodyKeepsOuter | app/api/ledgers/get-latest-balance-by-account-number/route.ts:68-71 | a string `body` that does not parse to something truthy leaves the outer object in place |
| LatestBalance.StatusChain | app/api/ledgers/get-latest-balance-by-account-number/route.ts:30-86 | 429, then 401 with the zeroed record for a blank entity number, 500 with the zeroed record for a throw, and otherwise always 200 with the unwrapped reply |
| LatestBalance.Answer | app/api/ledgers/get-latest-balance-by-account-number/route.ts:30-86 | the reply of the route handler; `StatusChain` states it |
| TransactionsAll.UnwrapApiGatewayLike | app/api/transactions/get-all-by-account-number/route.ts:34-41 | a non-object, or an object without a string `body`, is returned unchanged; a string `body` that parses to a non-null value replaces the object, otherwise the object is kept; so the result is nullish only for a nullish input |
| TransactionsAll.Outer | app/api/transactions/get-all-by-account-number/route.ts:69-70 | `outer ?? raw` is never nullish |
| TransactionsAll.StatusChain | app/api/transactions/get-all-by-account-number/route.ts:43-90 | each status holds exactly under its condition: 429 when limited, 401 for a blank entity number, 500 for a failed invoke, 502 for a `FunctionError` (carrying the reply as it came), and otherwise 200 with the unwrapped reply |
| TransactionsAll.Answer | app/api/transactions/get-all-by-account-number/route.ts:43-90 | the reply of the route handler; `StatusChain` states it |
| TransactionsAll.ProxyBodyIsUnwrapped | app/api/transactions/get-all-by-account-number/route.ts:68-70 | a proxy reply whose `body` holds JSON text is answered with that JSON |
| WalletLedgers.Extract | app/api/wallets/get-all-ledgers-by-entity-number/route.ts:21-64 | the function error is passed on; the Lambda response is kept exactly when the parsed reply is an object with a `body` key; then `data` is the body text parsed, or the body itself when that parse is null; without a `body` key `data` is `outer ?? raw`; `data` is never nullish |
| WalletLedgers.ErrorMessage | app/api/wallets/get-all-ledgers-by-entity-number/route.ts:88-91 | an object with a `message` key gives that message as text; anything else gives "Lambda error." |
| WalletLedgers.AppStatus | app/api/wallets/get-all-ledgers-by-entity-number/route.ts:95-97 | the kept response's numeric `statusCode`, else 200 |
| WalletLedgers.StatusChain | app/api/wallets/get-all-ledgers-by-entity-number/route.ts:66-109 | the whole 429 reply, then 401 for a blank entity number, 500 with the thrown message for a throw, 502 with the Lambda's message on a `FunctionError`; otherwise the data with the app status when that is in 200..599 other than 204/205/304, else 500 with the constructor's message |
| WalletLedgers.Answer | app/api/wallets/get-all-ledgers-by-entity-number/route.ts:66-109 | the reply of the route handler; `StatusChain` states it |
| WalletLedgers.ProxyStatusAndBody | app/api/wallets/get-all-ledgers-by-entity-number/route.ts:45-101 | a proxy reply `{"statusCode": k, "body": "<json>"}` with k in 200..599 other than 204/205/304 is answered with k and the parsed body |
| WalletLedgers.NullBodyStatusIs500 | app/api/wallets/get-all-ledgers-by-entity-number/route.ts:95-107 | a proxy reply with `statusCode` 204, 205 or 304 is answered 500 with the TypeError's message |
| ModulesDialog.ToStr | components/shared/ModulesDialog.tsx:43-45 | a string is kept as it is; `null` and `undefined` give the empty string |
| ModulesDialog.CleanHref | components/shared/ModulesDialog.tsx:47-49 | the result is trimmed, and empty exactly when the link is blank |
| ModulesDialog.LookalikeTailLabels | components/shared/ModulesDialog.tsx:56-57 | `evil-jefoffice.com` splits into two labels, so the suffix `jefoffice.com` does not begin at a label |
| ModulesDialog.LookalikeLabels | components/shared/ModulesDialog.tsx:57-58 | `a.evil-jefoffice.com` has three labels, enough for the label count |
| ModulesDialog.LookalikeHostAdmittedAsWritten | components/shared/ModulesDialog.tsx:51-62 | as written, an https link to `a.evil-jefoffice.com` is accepted although its host lies outside both company domains; the intended check refuses it |
| ModulesDialog.SubdomainUrlIsBelowDomain | components/shared/ModulesDialog.tsx:51-62 | corrected: every accepted link parses, is https, and has a host ending in `.jefoffice.com` or `.jefoffice.co`; the written check accepts each of them too |
| ModulesDialog.IsSubdomainUrlAsWritten | components/shared/ModulesDialog.tsx:51-62 | the check as written: https, host ending in `jefoffice.com` or `jefoffice.co`, three labels or more; `LookalikeHostAdmittedAsWritten` shows what it lets through |
| ModulesDialog.IsSubdomainUrl | components/shared/ModulesDialog.tsx:51-62 | the check as intended, the suffix starting at a dot; `SubdomainUrlIsBelowDomain` states it |
| ModulesDialog.UniqByKey | components/shared/ModulesDialog.tsx:64-74 | the loop with its `seen` set returns `Uniq(list)`, the first entry of each key in order |
| ModulesDialog.Uniq | components/shared/ModulesDialog.tsx:64-74 | the first entry of every key, in order; `UniqIsSubsequence`, `UniqKeepsFirst` and `UniqIdempotent` state it |
| ModulesDialog.UniqIsSubsequence | components/shared/ModulesDialog.tsx:64-74 | the result is a subsequence of the list, no two entries share a key, and every key of the list is kept |
| ModulesDialog.UniqKeepsFirst | components/shared/ModulesDialog.tsx:67-71 | the first entry with a given key is kept |
| ModulesDialog.UniqIdempotent | components/shared/ModulesDialog.tsx:64-74 | deduplicating twice is deduplicating once |
| ModulesDialog.BeforeTotal | components/shared/ModulesDialog.tsx:77-83 | given a consistent `localeCompare`, any two entries compare one way or the other |
| ModulesDialog.BeforeTransitive | components/shared/ModulesDialog.tsx:77-83 | given a consistent `localeCompare`, the comparator, by name and then by module number, is transitive |
| ModulesDialog.OrderIsTotalPreorder | components/shared/ModulesDialog.tsx:77-83 | given a consistent `localeCompare`, the comparator is a total preorder, as `sort` needs |
| ModulesDialog.SortMods | components/shared/ModulesDialog.tsx:76-84 | the result is a permutation of the list |
| ModulesDialog.SortModsSorted | components/shared/ModulesDialog.tsx:76-84 | given a consistent `localeCompare`, every earlier entry may come before every later one |
| ModulesDialog.ModuleOf | components/shared/ModulesDialog.tsx:174-182 | every field of an entry is text with no surrounding whitespace |
| ModulesDialog.Listable | components/shared/ModulesDialog.tsx:183-184 | number, name and href present and the href a company subdomain; `Candidates` states it is exactly what is kept |
| ModulesDialog.Candidates | components/shared/ModulesDialog.tsx:172-184 | exactly the listable entries, meaning number, name and href present and the href a company subdomain, read from object entries of `allowed_modules` |
| ModulesDialog.LoadOutcome | components/shared/ModulesDialog.tsx:149-197 | an aborted fetch changes nothing; a network error, a failed status or `exists` not true empties the list and sets an error message; a good reply lists only listable modules, each read from an object entry, with distinct keys, and sorted when `localeCompare` is consistent |
| ModulesDialog.LoadListsEveryModule | components/shared/ModulesDialog.tsx:171-186 | a good load loses no module: every listable module read from an object entry is listed, or an entry with its key is |
| ModulesDialog.CandidateListed | components/shared/ModulesDialog.tsx:171-186 | every listable object entry keeps its key through `uniqByKey` and `sortMods` |
| ModulesDialog.KeptKeyListed | components/shared/ModulesDialog.tsx:64-84 | every key among the candidates survives deduplication and sorting |
| ModulesDialog.Load | components/shared/ModulesDialog.tsx:149-197 | the state `run()` leaves; `LoadOutcome` and `LoadListsEveryModule` state it |
| ModulesDialog.Go | components/shared/ModulesDialog.tsx:206-211 | the page navigates exactly when the trimmed link passes the subdomain check, and then to the trimmed link |
| ModulesDialog.Results | components/shared/ModulesDialog.tsx:106-110 | a blank query shows a permutation of every module; any other query shows a permutation of the search hits |
| ModulesDialog.ResultsSorted | components/shared/ModulesDialog.tsx:106-110 | what the dialog lists is in `sortMods` order, by name then by `module_number`, when `localeCompare` is consistent |
| ModuleBreadcrumb.Collapsed | components/shared/ModuleBreadcrumb.tsx:57-61 | non-blank text collapses to non-empty text with no dash, no underscore and no doubled white space, and every character other than white space, dash and underscore survives, in order |
| ModuleBreadcrumb.TitleizeWords | components/shared/ModuleBreadcrumb.tsx:56-65 | blank text is titled "Item"; other text keeps the collapsed text's length, with each word's first letter upper-cased |
| ModuleBreadcrumb.Titleize | components/shared/ModuleBreadcrumb.tsx:56-65 | `titleize`; `TitleizeWords` states it |
| ModuleBreadcrumb.ClampInt | components/shared/ModuleBreadcrumb.tsx:83-88 | a non-finite number gives the fallback; otherwise the truncated number, clamped into `[min, max]` |
| ModuleBreadcrumb.Pathname | components/shared/ModuleBreadcrumb.tsx:134 | the path used is trimmed and never empty |
| ModuleBreadcrumb.Segments | components/shared/ModuleBreadcrumb.tsx:135-136 | no hidden segment is left; every other segment of the path is kept, in order |
| ModuleBreadcrumb.PathSegments | components/shared/ModuleBreadcrumb.tsx:134-136 | the decoded non-empty `/` parts of the path, before hidden ones are dropped; `Segments` is stated against it |
| ModuleBreadcrumb.PathOf | components/shared/ModuleBreadcrumb.tsx:139-143 | the link after at least one segment starts with `/` |
| ModuleBreadcrumb.Crumbs | components/shared/ModuleBreadcrumb.tsx:138-147 | there is one crumb per segment walked |
| ModuleBreadcrumb.LabelOf | components/shared/ModuleBreadcrumb.tsx:145 | a crumb's label: the `labeler`, else a truthy `labelMap` entry, else `titleize`; `CrumbsAt` states its use |
| ModuleBreadcrumb.CrumbsAt | components/shared/ModuleBreadcrumb.tsx:140-146 | crumb `i` is built from segment `i` and the path up to it |
| ModuleBreadcrumb.BuildCrumbs | components/shared/ModuleBreadcrumb.tsx:138-147 | the loop extending `acc` yields exactly the crumbs of every segment |
| ModuleBreadcrumb.HrefsNest | components/shared/ModuleBreadcrumb.tsx:142-143 | each crumb's link is the previous crumb's link, a slash and its own encoded segment |
| ModuleBreadcrumb.GroupOf | components/shared/ModuleBreadcrumb.tsx:164-167 | a crumb moved to the menu has a non-empty trimmed label ("Item" when blank) and a trimmed link |
| ModuleBreadcrumb.DuplicateCrumbAsWritten | components/shared/ModuleBreadcrumb.tsx:156-173 | as written, with `minItems` 5 above `maxItems` 2, a trail of three intermediate crumbs `[a, b, c]` shows `[a, b, c, c]`: the visible count exceeds the trail and the last crumb is shown twice |
| ModuleBreadcrumb.IntermediateDropsLast | components/shared/ModuleBreadcrumb.tsx:149-150 | the intermediate crumbs are all crumbs but the last, and without a given current page the current label is the last crumb's |
| ModuleBreadcrumb.ShortenAgreesWhenOrdered | components/shared/ModuleBreadcrumb.tsx:152-173 | the correction agrees with the code whenever `minItems <= maxItems` |
| ModuleBreadcrumb.SlicesPartition | components/shared/ModuleBreadcrumb.tsx:160-162 | head, middle and tail slices cover the trail exactly once when head and tail fit |
| ModuleBreadcrumb.Slice | components/shared/ModuleBreadcrumb.tsx:160-162 | `Array.prototype.slice` with its clamping of negative and oversized bounds |
| ModuleBreadcrumb.ShortenKeepsEveryCrumb | components/shared/ModuleBreadcrumb.tsx:149-173 | corrected: a trail of at most `maxItems` intermediate crumbs is kept whole; a longer one shows a head and a tail of at least one crumb each, which do not overlap, and the middle goes to the menu (when groups count as overflow) ahead of the extra entries; the current label is kept |
| ModuleBreadcrumb.ShortenAsWritten | components/shared/ModuleBreadcrumb.tsx:149-173 | the shortening as written; `DuplicateCrumbAsWritten` shows a crumb it shows twice and `ShortenAgreesWhenOrdered` where it agrees with `Shorten` |
| ModuleBreadcrumb.Shorten | components/shared/ModuleBreadcrumb.tsx:149-173 | the corrected shortening; `ShortenKeepsEveryCrumb` states it |
| ModuleBreadcrumb.KeepWithinTrail | components/shared/ModuleBreadcrumb.tsx:156-158 | head and tail are each at least one crumb and together no more than the trail |
| ModuleBreadcrumb.ViewCollapses | components/shared/ModuleBreadcrumb.tsx:193-209 | below the collapse threshold the view is the built trail; at or above it no crumb is shown and every crumb leads the menu in order; nothing is lost either way |
| ModuleBreadcrumb.ViewOf | components/shared/ModuleBreadcrumb.tsx:193-209 | the rendered view; `ViewCollapses` states it |
| ModuleBreadcrumb.SettingsOf | components/shared/ModuleBreadcrumb.tsx:112-116 | `maxItems` and `minItems` both lie in `[1, 20]` |
| ModuleBreadcrumb.ManualCrumbsBypassPath | components/shared/ModuleBreadcrumb.tsx:125-132 | given crumbs are used as they are; with `usePath` false there are none; a non-blank `current` prop is the current label |
| ModuleBreadcrumb.Build | components/shared/ModuleBreadcrumb.tsx:125-173 | the `built` memo; `ManualCrumbsBypassPath` and the `Shorten` lemmas state it |
| ModuleBreadcrumb.Breadcrumb | components/shared/ModuleBreadcrumb.tsx:190-209 | the trail: `built` through the view at the clamped `collapseToTwoLayersAt` |
| ModuleBreadcrumb.Go | components/shared/ModuleBreadcrumb.tsx:228-233 | the router moves exactly for a non-blank link, to the trimmed link |
| ModuleBreadcrumb.PrefetchTargets | components/shared/ModuleBreadcrumb.tsx:213-226 | the links prefetched are non-empty trimmed dropdown links, none twice; every non-blank dropdown link is among them, and they keep the dropdown's order |
| ModuleBreadcrumb.Links | components/shared/ModuleBreadcrumb.tsx:218 | the trimmed non-blank dropdown links in dropdown order; `PrefetchTargets` is stated against it |
| ModuleBreadcrumb.DedupKeepsEveryLink | components/shared/ModuleBreadcrumb.tsx:218-222 | the `seen` loop skips no link it has not seen |
| ModuleName.FormatKeepsDashes | components/shared/ModuleName.tsx:11-17 | formatting keeps the name's length and its dashes where they were, upper-cases the first character of each dash-separated part, and changes nothing once both sides are lower-cased |
| ModuleName.FormatIdempotent | components/shared/ModuleName.tsx:11-17 | formatting a formatted name changes nothing |
| ModuleName.FormatModuleName | components/shared/ModuleName.tsx:11-17 | `formatModuleName`; `FormatKeepsDashes` and `FormatIdempotent` state it |
| ModuleName.ModuleSegment | components/shared/ModuleName.tsx:21-23 | the first non-empty `/` part of the path, "" when none; `NoSegments` states it |
| ModuleName.Label | components/shared/ModuleName.tsx:19-26 | a label that is shown is never empty |
| ModuleName.NoSegments | components/shared/ModuleName.tsx:21 | a path has no non-empty segment exactly when it is all slashes |
| ModuleName.ShownUnlessOnlySlashes | components/shared/ModuleName.tsx:19-26 | the pill is shown exactly when the path holds a character other than `/`, and then it names the first segment, formatted |
| HeaderNavbar.RootOf | components/shared/HeaderNavbar.tsx:24-28 | the module segment is trimmed |
| HeaderNavbar.PathPart | components/shared/HeaderNavbar.tsx:24 | the path before any `?` and `#`; `QueryIgnored` and `FragmentIgnored` state it |
| HeaderNavbar.ModuleRoot | components/shared/HeaderNavbar.tsx:27 | the segment after a leading `app`, else the first; `AppPrefixSkipped` states it |
| HeaderNavbar.TitleOfRoot | components/shared/HeaderNavbar.tsx:31-32 | with `s` the root with dash and underscore runs made single spaces and trimmed, the title has the length of `s` and each character is `s`'s own, upper-cased exactly where `\b\w` matches; it is trimmed and holds no dash or underscore |
| HeaderNavbar.TitleOfRootExample | components/shared/HeaderNavbar.tsx:31-32 | "log-in" is titled "Log In" |
| HeaderNavbar.TitleFromPath | components/shared/HeaderNavbar.tsx:23-33 | "" when the path has no module segment, else the title of that segment; trimmed, with no dash or underscore |
| HeaderNavbar.QueryIgnored | components/shared/HeaderNavbar.tsx:24 | a query string after the path does not change the title |
| HeaderNavbar.FragmentIgnored | components/shared/HeaderNavbar.tsx:24 | a fragment after the path does not change the title |
| HeaderNavbar.AppPrefixSkipped | components/shared/HeaderNavbar.tsx:27 | under `/app` the title comes from the next segment: `/app/m` and `/m` have the same title |
| HeaderNavbar.Title | components/shared/HeaderNavbar.tsx:38-50 | never empty and trimmed: the `title` prop, else the public module-name setting, else the title of the path, else the trimmed `titleFallback`, else "Module" |
| HeaderNavbar.ShowBreadcrumb | components/shared/HeaderNavbar.tsx:52 | the breadcrumb is hidden exactly when `showBreadcrumb` is `false` |
| TransactionsPage.AsText | app/transactions/page.tsx:39 | a string is kept as it is, untrimmed; anything else is "" |
| TransactionsPage.AsNum | app/transactions/page.tsx:40-43 | a number is kept; anything else is `Number(v)` when finite, else 0 |
| TransactionsPage.CommaParts | app/transactions/page.tsx:53 | every part is non-empty and trimmed |
| TransactionsPage.BlankPartsKeepText | app/transactions/page.tsx:52-60 | text made only of commas and white space is shown unchanged by both helpers |
| TransactionsPage.JoinSplitMember | app/transactions/page.tsx:53 | splitting text of commas and white space at commas gives only blank parts |
| TransactionsPage.NoNonEmpty | app/transactions/page.tsx:53 | filtering a list of empty parts leaves nothing |
| TransactionsPage.LastPartAfterLastComma | app/transactions/page.tsx:52-55 | the piece after the last comma, trimmed, is what `lastCommaPart` shows |
| TransactionsPage.FirstPartBeforeFirstComma | app/transactions/page.tsx:57-60 | the piece before the first comma, trimmed, is what `firstCommaPart` shows |
| TransactionsPage.LastCommaPart | app/transactions/page.tsx:52-55 | `lastCommaPart`; `LastPartAfterLastComma` states it |
| TransactionsPage.FirstCommaPart | app/transactions/page.tsx:57-60 | `firstCommaPart`; `FirstPartBeforeFirstComma` states it |
| TransactionsPage.NormalizeKeepsEntries | app/transactions/page.tsx:195-212 | every entry is kept, in order, and no other; a non-array `transactions` gives none; an entry is outgoing exactly when its `type` is the string "sender"; the message is never empty |
| TransactionsPage.NormalizeTx | app/transactions/page.tsx:199-211 | one normalised entry; `NormalizeKeepsEntries` states its type rule |
| TransactionsPage.Normalize | app/transactions/page.tsx:195-212 | the normalised reply; `NormalizeKeepsEntries` states it |
| TransactionsPage.FetchOutcomes | app/transactions/page.tsx:174-222 | no error is shown exactly when the response is ok, and then the data is the normalised body; any error shows the empty failure data; a rejected response's error is the body's `message`, else "Request failed (status)"; a throw shows its message, else a fixed one |
| TransactionsPage.FetchData | app/transactions/page.tsx:174-222 | `fetchData` once the request settles; `FetchOutcomes` states it |
| TransactionsPage.FlowsPartition | app/transactions/page.tsx:228-238 | every entry is counted in exactly one of inflow and outflow, and the two totals add up to the sum of all amounts |
| CreatePayment.ClassNames | app/create-payment/page.tsx:33 | exactly the given non-empty class names are kept, and nothing empty |
| CreatePayment.CnSplitsBack | app/create-payment/page.tsx:33 | for names without spaces, `cn` is empty exactly when no truthy name was given, and otherwise splits back at its spaces into the truthy names in order |
| CreatePayment.IsMoneyMatchesPattern | app/create-payment/page.tsx:35 | the left-to-right reading accepts exactly the texts that split into an all-digit head and an empty tail or a point with at most two digits |
| CreatePayment.MoneyCharacters | app/create-payment/page.tsx:35 | an accepted text holds only digits and at most one point, with at most two characters after it, and every such text is accepted |
| CreatePayment.MoneyAccepted | app/create-payment/page.tsx:35 | "", ".", "12.", ".5", "12.34" and "007" are accepted |
| CreatePayment.MoneyRefused | app/create-payment/page.tsx:35 | signs, exponents, a third decimal, a second point and a leading space are refused |
| CreatePayment.ZeroIsMoney | app/create-payment/page.tsx:35 | the empty field and "0" are accepted and worth nothing |
| CreatePayment.IsMoney | app/create-payment/page.tsx:35 | the `isMoney` test; `IsMoneyMatchesPattern` states it against the regular expression |
| CreatePayment.CentsPositive | app/create-payment/page.tsx:211-218 | an accepted amount is worth more than zero exactly when it holds a digit other than 0 |
| CreatePayment.AmountPositiveIffNonZeroDigit | app/create-payment/page.tsx:211-218 | given ECMAScript's reading of decimal text, the amount part of `canSubmit` holds exactly when the text holds a digit other than 0: "", ".", "0" and "0.00" are refused |
| CreatePayment.FindAccount | app/create-payment/page.tsx:61-64 | `.find` on the accounts: the index found is the first account with that number; the search throws a TypeError exactly at the first null or undefined entry it reaches before a match; it finds none exactly when no entry is null and none has the number; a list without null entries never throws |
| CreatePayment.FindAccountWithoutNullish | app/create-payment/page.tsx:61-64 | a list without null or undefined entries is searched without a throw |
| CreatePayment.ReceiverName | app/create-payment/page.tsx:242 | the search's TypeError exactly when `FindAccount` throws, never on a list without null entries; "" when no account has the number; otherwise the name of the first account with it when that name is truthy, else "" |
| CreatePayment.DestinationsExcludeSender | app/create-payment/page.tsx:400 | the list renders exactly when no entry is null or undefined; then the sender's own account is never offered as a destination, and every other account is |
| CreatePayment.DestinationOptions | app/create-payment/page.tsx:400 | the filter at render throws (no destination list, the page fails to render) exactly when an entry is null or undefined; `DestinationsExcludeSender` states the list otherwise |
| CreatePayment.SenderNumber | app/create-payment/page.tsx:208 | the sender's number is trimmed |
| CreatePayment.SenderName | app/create-payment/page.tsx:209 | the sender's name is trimmed |
| CreatePayment.PayloadOf | app/create-payment/page.tsx:237-248 | a payload built when `canSubmit` holds and the receiver search returns is a transfer between two different accounts, of a positive amount, with every required field filled, carrying the form's sender, receiver, amount, ledger id and type |
| CreatePayment.CanSubmit | app/create-payment/page.tsx:211-223 | `canSubmit`; `SubmitOutcomes` states what it admits |
| CreatePayment.AfterSubmit | app/create-payment/page.tsx:225-262 | the state after `submit`; `SubmitOutcomes` and `NoSecondSubmit` state it |
| CreatePayment.SubmitOutcomes | app/create-payment/page.tsx:225-262 | a submit is sent exactly when `canSubmit` holds and the receiver search does not throw, so exactly when `canSubmit` holds on a list without null entries; a refused one changes only the two message lines; a throwing search changes only them too, showing the error's message or "Failed to submit."; a sent one is well formed, takes the new ledger id and clears amount, memo and receiver, keeping the rest |
| CreatePayment.NoSecondSubmit | app/create-payment/page.tsx:252-256 | after a transfer is sent, the cleared amount makes the next submit refused |
| CreatePayment.AmountChangeKeepsMoney | app/create-payment/page.tsx:299-302 | only the amount changes, to the trimmed text exactly when that is accepted, so the field only ever holds accepted text |
| CreatePayment.AfterAmountChange | app/create-payment/page.tsx:299-302 | the amount `onChange`; `AmountChangeKeepsMoney` states it |
| CreatePayment.SenderLoadOutcomes | app/create-payment/page.tsx:172-186 | the sender request ends the sender's loading and either stores an object with a truthy number from a reply flagged as existing, or shows a non-empty error; nothing else changes |
| CreatePayment.AfterSenderLoaded | app/create-payment/page.tsx:172-186 | the sender request settling; `SenderLoadOutcomes` states it |
| CreatePayment.AccountsLoadOutcomes | app/create-payment/page.tsx:190-200 | the accounts request ends the list's loading; a reply replaces the list with its array (or none), a failure keeps it and says so |
| CreatePayment.AfterAccountsLoaded | app/create-payment/page.tsx:190-200 | the accounts request settling; `AccountsLoadOutcomes` states it |
| CreatePayment.NullAccountEntryBreaksRender | app/create-payment/page.tsx:194-400 | an accounts reply holding a null entry is stored as it is, and the next render's filter throws, so no destination list exists |
| CreatePayment.SubmitFailure | app/create-payment/page.tsx:257-258 | the catch's message is the thrown message trimmed, or "Failed to submit." when that is blank; never empty |
| CreatePayment.SelectedReceiverIsNotSender | app/create-payment/page.tsx:396-401 | a destination chosen from the offered options, while the sender is known, is never the sender |
| CreatePayment.AfterSelect | app/create-payment/page.tsx:396-401 | choosing a destination; `SelectedReceiverIsNotSender` states it |
| CreatePayment.PaymentForm.constructor | app/create-payment/page.tsx:146-161 | the initial state: both requests loading, no sender, a credit, every field empty |
| CreatePayment.PaymentForm.GenerateLedgerId | app/create-payment/page.tsx:163-166 | only the ledger id changes, to the generated one |
| CreatePayment.PaymentForm.SenderLoaded | app/create-payment/page.tsx:172-186 | the new state is the sender request's outcome applied to the old one |
| CreatePayment.PaymentForm.AccountsLoaded | app/create-payment/page.tsx:190-200 | the new state is the accounts request's outcome applied to the old one |
| CreatePayment.PaymentForm.ChangeAmount | app/create-payment/page.tsx:299-302 | the new state is the amount change applied to the old one, keeping the field a money text |
| CreatePayment.PaymentForm.SelectReceiver | app/create-payment/page.tsx:396-401 | picking from the rendered destination list (which exists only when no account entry is null), the receiver becomes the chosen destination's number, which is never the sender's |
| CreatePayment.PaymentForm.Refuse | app/create-payment/page.tsx:227-233 | only the message lines change: no notice, and "Please complete all fields." |
| CreatePayment.PaymentForm.Reset | app/create-payment/page.tsx:252-256 | only the notice, ledger id, amount, memo and receiver change, in the handler's order |
| CreatePayment.PaymentForm.Submit | app/create-payment/page.tsx:225-262 | the new state and the payload sent are those of `submit` on the rendered state, including the catch of a throwing receiver search; a payload sent is well formed |

## Left out

- Network and platform services are inputs, not clients. The Lambda `InvokeCommand`, the parameter-store `GetParameterCommand`, `cookies()`, `fetch`, `console.log` and the clock are values passed in, and cookie writes are returned as values.
- Cryptography is abstract. `jose`'s `EncryptJWT`, `jwtDecrypt` and `jwtVerify`, AES-GCM and the JWE serialisation are a seal/open pair under the `Authenticated` hypothesis, plus the expiry check. An HS256 signature check is a verifying function passed in.
- JSON numbers are finite in the model. `Js.Value.Num` holds a real, so the Infinity that `JSON.parse` gives for an out-of-range literal such as `1e400` is not a value the model can be handed; `Js.Number`, the result of `Number(...)`, does have the non-finite cases.
- LedgerCreate.AsNum: does not cover a non-finite JSON number (Infinity from `1e400`), which the source turns into null; such a number cannot reach it in the model.
- TransactionCreate.Classify: does not cover a `statusCode` of `1e400`, which the source reads as Infinity and the response constructor refuses (502); the same holds for the relayed statuses of AccountsAll.Answer, LedgersAll.Answer and WalletLedgers.Answer, which would answer 500.
- Library parsers are `Js.Lib` parameters: `JSON.parse`, `JSON.stringify`, `Number(string)`, `String(number)`, base64 and base64url, URI coding and `new URL`. Only the facts the proofs need are stated about them.
- ModulesDialog.SortModsSorted: holds only under the hypothesis that `localeCompare` orders strings as a total preorder. The collation itself is a parameter.
- Fuse.js fuzzy search (`components/shared/ModulesDialog.tsx:97-110`) is not modelled: its hits are an input of `ModulesDialog.Results`.
- TransactionsPage.FlowsPartition: sums amounts as exact reals. The page adds IEEE doubles, so rounding is not captured.
- `Intl.NumberFormat`, `toLocaleString` and `toLocaleTimeString` formatting is not modelled; it only renders.
- Text.IntToString: exact decimal text only for numbers below 10^21. `String(number)` switches to exponent notation above that, and that branch is not modelled.
- Text.Lower: ASCII letters only, and so are the upper-casing rewrites in `Words`. JavaScript's full Unicode case mapping is not modelled.
- The current time is the parameter `nowMs` of `ValidateSession.Humanize` and of the session checks. `Date.now()` itself is not modelled.
- Effects, timers and rendering are not modelled. This covers:
  - React rendering, hooks and class-name strings (only `cn`'s joining is modelled);
  - keyboard listeners (`isTypingTarget`);
  - the 30-second "NEW" highlight;
  - `setLoading` toggles;
  - the `alive` and `mounted` flags of unmounted components;
  - the breadcrumb dropdown's `onSelect` callbacks;
  - `router.prefetch` errors.
- The `makeUuid` randomness is a parameter of `CreatePayment.PaymentForm.GenerateLedgerId` and `Submit`.
- CreatePayment.PaymentForm.Submit: the `submitting` flag it raises and lowers around the updates is never seen raised, because nothing in the handler awaits. The form therefore keeps it false.
- A null entry in the accounts list makes the render-time filter throw (`app/create-payment/page.tsx:400`), so the page fails to render. The model shows this as `CreatePayment.DestinationOptions` giving None. The React error page that follows is not modelled. The catch in `submit` is modelled, although a page that failed to render offers no submit button.
- CreatePayment.PaymentForm.SenderLoaded: the `setErr("")` at the start of the sender request runs at mount and is part of the initial state, not of the settling step.
- CreatePayment.AfterSelect: a picked account whose number is not a string is stored as "". The source would store the raw value.
- Plain setters are not modelled: the type toggle, the `createdBy` and memo inputs, and the page's `accountNumber` from the query string are direct assignments.
- The Next.js `config.matcher` (`proxy.ts:149-155`) is routing configuration, and requests are assumed to match it.
- Request-id headers, `x-lambda-*` diagnostic headers and `cache-control` variations are kept only where a status depends on them.
- Runtime exception messages are opaque strings passed in. These are the messages of `RangeError` from an invalid status and `TypeError` from `in` on a primitive.
- LoginDetails.AlwaysOkOnceSignedIn: an invocation that throws escapes the handler (there is no `catch`), and the model marks it as uncaught without modelling Next.js's error page.
- ModuleBreadcrumb: `labelMap` lookups see only the map's own entries. Inherited prototype properties such as `constructor` are not modelled.
- `app/api/shared/example/route.ts` and `app/api/shared/session/delete-one/route.ts` are not part of this model. They only call the rate limiter and `deleteSession`, and `Session.DeleteMatchesCreate` covers the cookie deletion.
- `RateLimiterMemory` is modelled as its fixed-window counters only. Its timers and memory store are not modelled.
- The single-flight caches (`_keyPromise`, `moduleNumberPromise`) are modelled sequentially: empty, holding a value, or cleared on failure. Concurrent callers sharing one pending promise are not modelled.
- RateLimiter.Shape: any error thrown by `consume`, not only a limiter rejection, is answered as rate-limited (`lib/rateLimiter.ts:23-29`), so the limiter fails closed; an error without `msBeforeNext` gives a `Retry-After` of `NaN`.
- Gateway.Proxy: a refused page is only ever redirected (`proxy.ts:90-146`), to login or to access-denied, never answered with a JSON 401 or 403, and the middleware applies no rate limit of its own.
- TransactionCreate.Read: reads the amount with the corrected `AsNum`, which reads a blank amount as no amount; as written (`AsNumAsWritten`) a blank amount reads as 0, passes the guards and is sent to the Lambda, as `BlankAmountAcceptedAsWritten` and `BlankAmountPassesGuardAsWritten` show (see Findings).
- TransactionCreate.ProblemOrder: judges the amount read by the corrected `AsNum`, which reads a blank amount as no amount; as written (`AsNumAsWritten`) a blank amount reads as 0, passes the guards and is sent to the Lambda, as `BlankAmountAcceptedAsWritten` and `BlankAmountPassesGuardAsWritten` show (see Findings).
- TransactionCreate.StatusOrder: judges the amount read by the corrected `AsNum`, which reads a blank amount as no amount; as written (`AsNumAsWritten`) a blank amount reads as 0, passes the guards and is sent to the Lambda, as `BlankAmountAcceptedAsWritten` and `BlankAmountPassesGuardAsWritten` show (see Findings).
- TransactionCreate.PayloadIsTheValidatedFields: forwards the amount read by the corrected `AsNum`, which reads a blank amount as no amount; as written (`AsNumAsWritten`) a blank amount reads as 0, passes the guards and is sent to the Lambda, as `BlankAmountAcceptedAsWritten` and `BlankAmountPassesGuardAsWritten` show (see Findings).
- TransactionCreate.Answer: reads the amount with the corrected `AsNum`, which reads a blank amount as no amount; as written (`AsNumAsWritten`) a blank amount reads as 0, passes the guards and is sent to the Lambda, as `BlankAmountAcceptedAsWritten` and `BlankAmountPassesGuardAsWritten` show (see Findings).
- TransactionCreate.Request: carries the amount read by the corrected `AsNum`, which reads a blank amount as no amount; as written (`AsNumAsWritten`) a blank amount reads as 0, passes the guards and is sent to the Lambda, as `BlankAmountAcceptedAsWritten` and `BlankAmountPassesGuardAsWritten` show (see Findings).
- ModulesDialog.Listable: tests the link with the corrected `IsSubdomainUrl`, whose domain suffix starts at a dot; the check as written (`IsSubdomainUrlAsWritten`) also admits look-alike hosts such as `https://a.evil-jefoffice.com/`, as `LookalikeHostAdmittedAsWritten` shows (see Findings).
- ModulesDialog.Candidates: filters with the corrected `IsSubdomainUrl`, whose domain suffix starts at a dot; the check as written (`IsSubdomainUrlAsWritten`) also admits look-alike hosts such as `https://a.evil-jefoffice.com/`, as `LookalikeHostAdmittedAsWritten` shows (see Findings).
- ModulesDialog.Load: filters with the corrected `IsSubdomainUrl`, whose domain suffix starts at a dot; the check as written (`IsSubdomainUrlAsWritten`) also admits look-alike hosts such as `https://a.evil-jefoffice.com/`, as `LookalikeHostAdmittedAsWritten` shows (see Findings).
- ModulesDialog.LoadOutcome: is stated for a list filtered with the corrected `IsSubdomainUrl`, whose domain suffix starts at a dot; the check as written (`IsSubdomainUrlAsWritten`) also admits look-alike hosts such as `https://a.evil-jefoffice.com/`, as `LookalikeHostAdmittedAsWritten` shows (see Findings).
- ModulesDialog.Go: tests the link with the corrected `IsSubdomainUrl`, whose domain suffix starts at a dot; the check as written (`IsSubdomainUrlAsWritten`) also admits look-alike hosts such as `https://a.evil-jefoffice.com/`, as `LookalikeHostAdmittedAsWritten` shows (see Findings).
- ModuleBreadcrumb.Build: shortens the trail with the corrected `Shorten`; as written (`ShortenAsWritten`) a crumb can be shown twice when `minItems > maxItems`, as `DuplicateCrumbAsWritten` shows, and the two agree whenever `minItems <= maxItems` (`ShortenAgreesWhenOrdered`) (see Findings).
- ModuleBreadcrumb.Breadcrumb: shows the trail shortened by the corrected `Shorten`; as written (`ShortenAsWritten`) a crumb can be shown twice when `minItems > maxItems`, as `DuplicateCrumbAsWritten` shows, and the two agree whenever `minItems <= maxItems` (`ShortenAgreesWhenOrdered`) (see Findings).

## Findings

| source | as written | input that shows it | evidently intended | confidence | as-written member | corrected member |
|---|---|---|---|---|---|---|
| app/api/transactions/sqs-create-one/route.ts:17-24 | `asNum` removes commas, trims and calls `Number`, which reads blank text as 0; the amount guard at lines 74-79 only tests finiteness | `amount: ""` or `amount: " , "` | a missing or blank amount is refused with 400 like the other missing fields | not executed | TransactionCreate.BlankAmountAcceptedAsWritten | TransactionCreate.FiniteAmountIsGiven |
| components/shared/ModulesDialog.tsx:51-62 | `isSubdomainUrl` tests `endsWith("jefoffice.com")` without a leading dot | `https://a.evil-jefoffice.com/` | only hosts below `jefoffice.com` or `jefoffice.co` are company subdomains | not executed | ModulesDialog.LookalikeHostAdmittedAsWritten | ModulesDialog.SubdomainUrlIsBelowDomain |
| components/shared/ModuleBreadcrumb.tsx:156-173 | `visibleCount` is `max(minItems, min(maxItems, n))`, which can exceed the trail when `minItems > maxItems`, so head and tail overlap | three intermediate crumbs, `maxItems` 2, `minItems` 5 | each crumb is shown at most once, in head, tail or menu | not executed | ModuleBreadcrumb.DuplicateCrumbAsWritten | ModuleBreadcrumb.ShortenKeepsEveryCrumb |
