# RelayDocs core, modelled in Dafny

RelayDocs is a collaborative document service with three parts:

- a Node gateway that authenticates users and forwards requests;
- a Spring document service that stores documents, their sharing permissions and the accounts;
- a React web client.

This project models the parts of that system that decide who may do what, and proves what they promise.

- **Gateway** (`apps/gateway/src`):
  - the login lockout tracker, with its in-memory map and its optional external counter store;
  - the fixed-window rate limiter;
  - the bearer-token middleware with its development tokens;
  - the runtime and authentication-control settings read from the environment, and the listening port;
  - the request-body schemas;
  - the signup and login routes, which tie the lockout tracker to the document service.
- **Document service** (`services/document-service`):
  - read, edit and share access rules, and the visibility query;
  - create, update and share, with the events they publish;
  - the tolerant role parser;
  - account signup and login;
  - the exception-to-HTTP mapping;
  - the Kafka consumer's event identification and its exactly-once recorder.
- **Web client** (`apps/web/src`): the stored session and the wording of error messages.
- **The next-session prompt script** (`scripts/generate-next-session-prompt.mjs`): section extraction, checklist cleaning, the latest decision date and the prompt it writes.

How the model is shaped:

- Code that changes state in place is modelled as classes:
  - `LockoutTracker`, `CounterStore.Store`, `RateLimiter`, `AuthExchange`;
  - `DocumentStore`, `AccountStore`, `ConsumedEventRecorder`, `BrowserStorage`.
- Each method is proved equal to a pure function of the old state.
- The properties are lemmas about those functions.
- Clocks (`Date.now()`, `Instant.now()`), environment variables, JSON parsing, signature checks, BCrypt and SHA-256 are parameters of the model.
- Times are integer milliseconds.
- JavaScript's `String.prototype.trim`, `parseInt` and `startsWith` are modelled in `JsString`, with `\s` as ECMAScript defines it.
- Java's `String.trim` and `isBlank` are modelled in `JavaString`.

Some behaviours of the code are modelled as written and stated by lemmas:

- In memory, a lockout threshold of 1 locks only on the second failure of a window, while the store path locks on the first (`MemoryBurstLocksAtThreshold`, `StoreBurstLocksAtThreshold`).
- The gateway verifies tokens with the raw `JWT_SECRET` while tokens are signed with `runtime.ts`'s checked secret (`WeakSecretMismatch`, `UnsetSecretRefusesIssuedTokens`).
- The middleware accepts development tokens even under `NODE_ENV=production` (`ProductionStillAcceptsDevTokens`).
- The lockout key keeps the username as sent, while the account store trims it (`LockoutKeyIgnoresTrim`).
- A password padded with blanks at signup is refused at login when typed the same way, for passwords within BCrypt's 72 UTF-8 bytes (`PaddedPasswordRefused`).
- The checklist cleaner drops the number together with the box of a numbered item (`NumberedBoxDropped`).
- The checklist cleaner's `.` is one UTF-16 code unit, so a box holding a character above U+FFFF is left in the line (`AstralBulletKept`, `AstralNumberedKept`).
- The prompt carries the script's own reading of the latest decision date. That reading keeps "##" or extra whitespace unless exactly one space follows "##", and a line break there splits the date line (`PromptDateLine`, `NewlineSeparatedDateSplitsLine`; see "## Findings").

## Model

| member | source | states |
|---|---|---|
| AuthLockout.CreateKeyIgnoresCase | apps/gateway/src/security/authLockout.ts:12-14 | two usernames share a lockout key for one ip exactly when they differ only in letter case |
| AuthLockout.StoreKeysDistinct | apps/gateway/src/security/authLockout.ts:20-26 | an account's lock key and failure key never collide, and each key names one account |
| AuthLockout.LockedInMemory | apps/gateway/src/security/authLockout.ts:73-95 | locked exactly while lockedUntil is in the future; an unlocked entry is evicted exactly when its window has passed or its lock has run out |
| AuthLockout.RecordedInMemory | apps/gateway/src/security/authLockout.ts:97-121 | a missing or stale entry restarts at one failure without a lock; otherwise the count grows, the window start stays, and reaching the threshold locks for the duration; the result is whether the entry is now locked |
| AuthLockout.RecordedInMemoryWellFormed | apps/gateway/src/security/authLockout.ts:101-120 | recording keeps every entry at one failure or more, with a lock only at the threshold |
| AuthLockout.MemoryBurstLocksAtThreshold | apps/gateway/src/security/authLockout.ts:101-120 | in one window the k-th failure reports a lock exactly when k reaches the threshold and k is at least 2, and the entry counts every failure |
| AuthLockout.LockOutlivesWindow | apps/gateway/src/security/authLockout.ts:80-87 | a lock still in force reads as locked even after the failure window has passed |
| AuthLockout.LockLastsForDuration | apps/gateway/src/security/authLockout.ts:73-121 | a lock set at t holds for every check before t + duration and is evicted at the first check from then on |
| AuthLockout.LockedInStore | apps/gateway/src/security/authLockout.ts:28-37 | with a store, locked exactly when the lock key is live with a future expiry; without one, never |
| AuthLockout.RecordedInStoreEffect | apps/gateway/src/security/authLockout.ts:39-62 | a store failure locks exactly when the incremented count reaches the threshold, then sets the lock for the duration and deletes the counter; otherwise the counter holds the count and gets the window as expiry only on its first increment |
| AuthLockout.ClearedInStore | apps/gateway/src/security/authLockout.ts:64-71 | clearing deletes the failure key and nothing else |
| AuthLockout.ClearKeepsStoreLock | apps/gateway/src/security/authLockout.ts:64-71 | clearing failures never lifts a store lock |
| AuthLockout.StoreBurstLocksAtThreshold | apps/gateway/src/security/authLockout.ts:48-59 | in one window only the failure that reaches the threshold reports a lock; before it the counter holds the count with the window's expiry, and at it the counter is gone and the lock lives for the duration |
| AuthLockout.AccountLocked | apps/gateway/src/security/authLockout.ts:127-135 | locked when the store holds a lock or the map holds an unexpired one; a store lock leaves the map untouched, and otherwise the answer and the map (with its eviction) are those of LockedInMemory |
| AuthLockout.AuthFailureRecorded | apps/gateway/src/security/authLockout.ts:137-145 | the store path always runs; when it sets a lock the map is untouched, otherwise the in-memory path decides |
| AuthLockout.AuthFailuresCleared | apps/gateway/src/security/authLockout.ts:147-151 | the account's map entry and store counter go, and every other entry is kept |
| AuthLockout.LockoutTracker.constructor | apps/gateway/src/security/authLockout.ts:10 | the process starts with an empty lockout map |
| AuthLockout.LockoutTracker.IsLockedInMemory | apps/gateway/src/security/authLockout.ts:73-95 | answer and map are those of LockedInMemory, and the map invariant is kept |
| AuthLockout.LockoutTracker.RecordFailureInMemory | apps/gateway/src/security/authLockout.ts:97-121 | answer and map are those of RecordedInMemory, and the map invariant is kept |
| AuthLockout.LockoutTracker.ClearFailuresInMemory | apps/gateway/src/security/authLockout.ts:123-125 | the key's entry is removed and the map is otherwise unchanged |
| AuthLockout.LockoutTracker.IsAccountLocked | apps/gateway/src/security/authLockout.ts:127-135 | answer and map are those of AccountLocked over the store's contents |
| AuthLockout.LockoutTracker.RecordAuthFailure | apps/gateway/src/security/authLockout.ts:137-145 | answer, map and store are those of AuthFailureRecorded |
| AuthLockout.LockoutTracker.ClearAuthFailures | apps/gateway/src/security/authLockout.ts:147-151 | map and store are those of AuthFailuresCleared |
| AuthLockout.IsLockedInStore | apps/gateway/src/security/authLockout.ts:28-37 | the answer is LockedInStore of the store's contents |
| AuthLockout.RecordFailureInStore | apps/gateway/src/security/authLockout.ts:39-62 | the INCR, PEXPIRE, SET and DEL steps leave the store as RecordedInStore says |
| AuthLockout.ClearFailuresInStore | apps/gateway/src/security/authLockout.ts:64-71 | the store is left as ClearedInStore says |
| CounterStore.Incremented | apps/gateway/src/security/redisClient.ts:5 | INCR starts a missing or expired key at 1 without expiry, adds one to a live key and keeps its expiry, and touches no other key |
| CounterStore.ExpiryChanged | apps/gateway/src/security/redisClient.ts:6 | PEXPIRE sets a live key's expiry and replies 1, or replies 0 and changes nothing |
| CounterStore.TimeToLive | apps/gateway/src/security/redisClient.ts:7 | PTTL is -2 for a missing key, -1 for a key without expiry, and otherwise the milliseconds left |
| CounterStore.Deleted | apps/gateway/src/security/redisClient.ts:9 | DEL removes the key and keeps every other entry |
| CounterStore.Store.Incr | apps/gateway/src/security/redisClient.ts:5 | reply and contents are those of Incremented |
| CounterStore.Store.PExpire | apps/gateway/src/security/redisClient.ts:6 | reply and contents are those of ExpiryChanged |
| CounterStore.Store.PTtl | apps/gateway/src/security/redisClient.ts:7 | the reply is TimeToLive, and nothing changes |
| CounterStore.Store.SetWithExpiry | apps/gateway/src/security/redisClient.ts:8 | SET with PX stores the value with the given expiry |
| CounterStore.Store.Del | apps/gateway/src/security/redisClient.ts:9 | contents are those of Deleted |
| RateLimit.RetryAfterSeconds | apps/gateway/src/middleware/rateLimit.ts:47-48 | 1 when at most a second of the window is left; otherwise the milliseconds left in the window rounded up to whole seconds |
| RateLimit.RetryAfterHeader | apps/gateway/src/middleware/rateLimit.ts:48 | the header text reads back as the number of seconds |
| RateLimit.Step | apps/gateway/src/middleware/rateLimit.ts:35-55 | a request is rejected exactly when its key's window is open and full; a rejection changes nothing and names the Retry-After of RetryAfterSeconds for the time elapsed in the key's window; no other key changes |
| RateLimit.StepPreservesBounded | apps/gateway/src/middleware/rateLimit.ts:40-54 | every window keeps between 1 and maxRequests admitted requests |
| RateLimit.RateLimiter.constructor | apps/gateway/src/middleware/rateLimit.ts:32-33 | each middleware instance starts with its own empty map and its options |
| RateLimit.RateLimiter.Handle | apps/gateway/src/middleware/rateLimit.ts:35-55 | decision and map are those of Step, and the bound is kept |
| RateLimit.ClientIp | apps/gateway/src/middleware/rateLimit.ts:24-30 | the request ip when it is non-empty, else "unknown" |
| RateLimit.AuthRateLimitOptions | apps/gateway/src/middleware/rateLimit.ts:58-62 | the limit and the window are positive whatever the environment holds |
| RateLimit.AuthRateLimitDefaults | apps/gateway/src/middleware/rateLimit.ts:59-60 | unset, the limiter admits 20 requests per 60000 ms |
| RateLimit.BurstWithinWindow | apps/gateway/src/middleware/rateLimit.ts:40-54 | in one window the first maxRequests requests (at least one) are admitted and all later ones rejected |
| RateLimit.WindowElapsedAdmits | apps/gateway/src/middleware/rateLimit.ts:40-43 | once the window has elapsed the next request is admitted and opens a new window |
| RateLimit.RejectionKeepsWindow | apps/gateway/src/middleware/rateLimit.ts:46-51 | a rejection leaves the map unchanged |
| RateLimit.RetryAfterAtMostWindow | apps/gateway/src/middleware/rateLimit.ts:47 | Retry-After never exceeds the window length in whole seconds |
| RateLimit.RetryAfterIsTheWait | apps/gateway/src/middleware/rateLimit.ts:35-49 | a request of the rejected key Retry-After seconds later is admitted, and one a second earlier is still rejected when Retry-After exceeds 1 |
| RequireAuth.BearerToken | apps/gateway/src/middleware/requireAuth.ts:7-15 | a token exactly when the header starts with the case-sensitive "Bearer ", and then the trimmed rest |
| RequireAuth.Authenticate | apps/gateway/src/middleware/requireAuth.ts:26-72 | an authenticated user id is never empty; a refusal is "Unauthorized" exactly when the token is missing or empty, and "Invalid token" otherwise |
| RequireAuth.RequireAuth | apps/gateway/src/middleware/requireAuth.ts:26-72 | on success the user id is attached and the request goes on with the response untouched; on refusal the response is 401 with the message and nothing else changes |
| RequireAuth.BearerTokenOfHeader | apps/gateway/src/middleware/requireAuth.ts:10-14 | "Bearer <token>" yields the token itself when it is unpadded |
| RequireAuth.MissingSchemeRefused | apps/gateway/src/middleware/requireAuth.ts:31-36 | no header, or no exact "Bearer " scheme, is refused as "Unauthorized" |
| RequireAuth.LowercaseSchemeRefused | apps/gateway/src/middleware/requireAuth.ts:10 | "bearer dev-token-alice" is refused as "Unauthorized" |
| RequireAuth.DevTokenIdentity | apps/gateway/src/middleware/requireAuth.ts:38-48 | with dev tokens on, "dev-token-<id>" authenticates as id whatever the verifier says, and an empty id is an invalid token |
| RequireAuth.DevTokenAuthenticates | apps/gateway/src/middleware/requireAuth.ts:38-48 | an accepted dev token authenticates as the text after its prefix, or is invalid when that is empty |
| RequireAuth.NoSecretRefusesSignedTokens | apps/gateway/src/middleware/requireAuth.ts:51-56 | without a secret, every non-dev token is an invalid token |
| RequireAuth.SignedTokenSubject | apps/gateway/src/middleware/requireAuth.ts:58-71 | a signed token authenticates exactly when it verifies with a non-empty subject, and as that subject |
| RequireAuth.StrongSecretAgrees | apps/gateway/src/middleware/requireAuth.ts:21-24 | with a strong JWT_SECRET, tokens are signed and verified with the same secret, so an issued token authenticates its subject |
| RequireAuth.UnsetSecretRefusesIssuedTokens | apps/gateway/src/middleware/requireAuth.ts:51-56 | outside production with JWT_SECRET unset, tokens are signed with the development secret and every non-dev token is refused |
| RequireAuth.WeakSecretMismatch | apps/gateway/src/middleware/requireAuth.ts:21-24 | a short JWT_SECRET outside production signs with the development secret but verifies with the configured one |
| RequireAuth.ProductionStillAcceptsDevTokens | apps/gateway/src/middleware/requireAuth.ts:17-19 | under NODE_ENV=production runtime.ts reports dev tokens off, yet the middleware still accepts them |
| RuntimeConfig.JwtSecret | apps/gateway/src/config/runtime.ts:7-21 | a strong configured secret is used; otherwise production fails and other environments use the development secret |
| RuntimeConfig.PlaceholderCheckRedundant | apps/gateway/src/config/runtime.ts:10 | every secret of 32 code units or more is strong, because the placeholder is shorter |
| RuntimeConfig.ProductionSecretIsStrong | apps/gateway/src/config/runtime.ts:10-18 | in production a returned secret has at least 32 code units |
| RuntimeConfig.DevTokensAllowed | apps/gateway/src/config/runtime.ts:23-29 | never in production; elsewhere unless ALLOW_DEV_TOKENS is exactly "false" |
| AuthControlsConfig.ParsePositiveInt | apps/gateway/src/security/authControlsConfig.ts:1-9 | the result is the fallback or a positive number that the raw text parses to, and it is positive when the fallback is |
| AuthControlsConfig.UnsetYieldsFallback | apps/gateway/src/security/authControlsConfig.ts:2 | an unset variable yields the fallback |
| AuthControlsConfig.SetValueParsedOrFallback | apps/gateway/src/security/authControlsConfig.ts:2-8 | a non-number or non-positive setting yields the fallback; a positive one is taken |
| AuthControlsConfig.DigitPrefixAccepted | apps/gateway/src/security/authControlsConfig.ts:2 | a positive number followed by other text ("15ms") configures that number |
| AuthControlsConfig.FromEnvironment | apps/gateway/src/security/authControlsConfig.ts:11-17 | every setting is positive whatever the environment holds |
| AuthControlsConfig.DefaultsWhenUnset | apps/gateway/src/security/authControlsConfig.ts:11-17 | with nothing set: 20 requests per 60000 ms, and 5 failures in 900000 ms lock for 900000 ms |
| GatewayPort.ParsePort | apps/gateway/src/index.ts:5-14 | the port is in 1..65535, and is either 8082 or what the setting parses to; a setting that parses into range is taken |
| GatewayPort.DecimalPortAccepted | apps/gateway/src/index.ts:7 | a decimal port in range, possibly followed by other text, is taken |
| GatewayPort.OutOfRangeFallsBack | apps/gateway/src/index.ts:9-11 | 0 and ports above 65535 fall back to 8082 |
| GatewayPort.NonNumericFallsBack | apps/gateway/src/index.ts:9-11 | a setting without a digit after blanks and sign falls back to 8082 |
| JsString.Trim | apps/gateway/src/middleware/requireAuth.ts:14 | the result has no leading or trailing whitespace, and is empty exactly when the input is blank |
| JsString.ParseInt | apps/gateway/src/security/authControlsConfig.ts:2 | parsing fails exactly when no digit follows the leading blanks and sign |
| JsString.ParseIntOfIntString | apps/gateway/src/security/authControlsConfig.ts:2 | String(n) parses back to n |
| JsString.ParseIntIgnoresSuffix | apps/gateway/src/index.ts:7 | a decimal number followed by a non-digit parses to that number |
| AuthRoutes.MapError | apps/gateway/src/routes/auth.ts:12-29 | bad bodies are 400 with their issues; a downstream 4xx passes through with its message; other downstream failures are 502 and anything else is 500, with fixed messages |
| AuthRoutes.ServerFailureDetailsHidden | apps/gateway/src/routes/auth.ts:24 | a downstream failure outside 4xx discloses nothing of its message |
| AuthRoutes.RequestIp | apps/gateway/src/routes/auth.ts:88-94 | the request ip when it is non-empty, else "unknown" |
| AuthRoutes.IssueToken | apps/gateway/src/routes/auth.ts:31-38 | a token is signed for the user with getJwtSecret's secret exactly when that secret is available |
| AuthRoutes.Signup | apps/gateway/src/routes/auth.ts:43-52 | a token with 201 exactly when the body is valid, the service creates the account and a secret is available; an invalid body is 400 with its issues |
| AuthRoutes.LoginFlow | apps/gateway/src/routes/auth.ts:54-83 | a token always comes with 200 after the service was asked; the store changes only after the service was asked; an invalid body changes nothing |
| AuthRoutes.Login | apps/gateway/src/routes/auth.ts:54-83 | reply, lockout map and store are those of LoginFlow |
| AuthRoutes.LockedAccountSkipsService | apps/gateway/src/routes/auth.ts:57-62 | a locked account gets 429 without the service being asked, and the store is unchanged |
| AuthRoutes.AcceptedLoginClearsFailures | apps/gateway/src/routes/auth.ts:64-67 | accepted credentials clear the account's failures and get the signed token |
| AuthRoutes.RejectedLoginRecordsOneFailure | apps/gateway/src/routes/auth.ts:69-81 | a 401 from the service records one failure; the reply is 429 when that locks, and the 401 otherwise |
| AuthRoutes.OtherFailuresRecordNothing | apps/gateway/src/routes/auth.ts:81 | any other service failure records nothing and is mapped by mapError |
| AuthRoutes.RepeatedFailuresLockThenExpire | apps/gateway/src/routes/auth.ts:54-83 | under the defaults, the fifth wrong password locks, the right one is then refused unasked, and it succeeds once the lock has expired |
| RequestSchemas.ParseCredentials | apps/gateway/src/schemas/auth.ts:3-11 | accepted exactly when username has 3-100 and password 8-128 code units, and then taken as sent |
| RequestSchemas.CredentialsRoundTrip | apps/gateway/src/schemas/auth.ts:3-6 | a credentials body reads back as itself exactly when both strings are within bounds |
| RequestSchemas.ParseCreateDocument | apps/gateway/src/schemas/documents.ts:3-6 | accepted exactly when title has 1-255 and content 1-100000 code units |
| RequestSchemas.ParseUpdateDocument | apps/gateway/src/schemas/documents.ts:8-13 | accepted exactly when the body is an object with a title or content, and each present field is text bounded as on creation (1 to 255 and 1 to 100000 code units); an accepted body carries exactly the present fields, and the at-least-one refusal comes exactly for an object with neither |
| RequestSchemas.RoleName | apps/gateway/src/schemas/documents.ts:17 | each role's name parses back to it |
| RequestSchemas.ParseRoleName | apps/gateway/src/schemas/documents.ts:17 | exactly "viewer" and "editor" are roles |
| RequestSchemas.ParseShareDocument | apps/gateway/src/schemas/documents.ts:15-18 | accepted exactly with a non-empty user id and a role name, which the result carries |
| RequestSchemas.RoleNamesCaseSensitive | apps/gateway/src/schemas/documents.ts:17 | "Editor" and "VIEWER" are refused |
| DocumentService.FindDocument | services/document-service/src/main/java/com/relaydocs/documentservice/service/DocumentService.java:169-172 | the document with that id when there is one, and none only when no document has it |
| DocumentService.DocumentOrNotFound | services/document-service/src/main/java/com/relaydocs/documentservice/service/DocumentService.java:169-172 | the document, or "Document not found" exactly when there is none |
| DocumentService.CanRead | services/document-service/src/main/java/com/relaydocs/documentservice/service/DocumentService.java:179-182 | its lemmas state that an editor may read (EditImpliesRead) and that the visibility query lists exactly the documents it allows (VisibleIffReadable) |
| DocumentService.CanEdit | services/document-service/src/main/java/com/relaydocs/documentservice/service/DocumentService.java:184-193 | its lemmas state that editing implies reading, that a viewer's update is refused (ViewerUpdateForbidden) and that a share makes the target an editor exactly for the editor role (ShareGrantsRole) |
| DocumentService.EditImpliesRead | services/document-service/src/main/java/com/relaydocs/documentservice/service/DocumentService.java:179-193 | whoever may edit may read |
| DocumentService.SharedWith | services/document-service/src/main/java/com/relaydocs/documentservice/service/DocumentService.java:196-202 | its lemma SharedWithListing states the listing: each permission holder once, ascending, with the lower-case role |
| DocumentService.SharedWithListing | services/document-service/src/main/java/com/relaydocs/documentservice/service/DocumentService.java:195-202 | sharedWith lists every permission holder once, in ascending user-id order, with their lower-case role |
| DocumentService.ToResponse | services/document-service/src/main/java/com/relaydocs/documentservice/service/DocumentService.java:195-213 | the response carries the id, owner, title and content of the document and its sharedWith listing |
| DocumentService.Fetched | services/document-service/src/main/java/com/relaydocs/documentservice/service/DocumentService.java:71-80 | not found first, then forbidden unless the actor may read, else the response |
| DocumentService.WithUser | services/document-service/src/main/java/com/relaydocs/documentservice/service/DocumentService.java:174-177 | an unknown user is created as <id>@relaydocs.local; a known one is left alone |
| DocumentService.DocumentRows | services/document-service/src/main/java/com/relaydocs/documentservice/persistence/DocumentRepository.java:12-13 | the left join gives each document one row per permission, or one row without a user |
| DocumentService.JoinRowsContents | services/document-service/src/main/java/com/relaydocs/documentservice/persistence/DocumentRepository.java:12-13 | the join's rows are the table's documents with their permission holders, and every document appears |
| DocumentService.MatchingRows | services/document-service/src/main/java/com/relaydocs/documentservice/persistence/DocumentRepository.java:14 | the kept rows are those whose owner or permission holder is the user |
| DocumentService.FindVisibleDocuments | services/document-service/src/main/java/com/relaydocs/documentservice/persistence/DocumentRepository.java:10-17 | its lemmas state that the query lists exactly the readable documents (VisibleIffReadable), in ascending id order, each once (VisibleDocumentsAscending), and equals the canRead filter of the table (VisibleDocumentsAreReadableInOrder) |
| DocumentService.DistinctDocuments | services/document-service/src/main/java/com/relaydocs/documentservice/persistence/DocumentRepository.java:11 | each document of the rows is listed |
| DocumentService.DistinctDocumentsAscending | services/document-service/src/main/java/com/relaydocs/documentservice/persistence/DocumentRepository.java:11-15 | distinct rows in id order give strictly ascending ids |
| DocumentService.ReadableDocuments | services/document-service/src/main/java/com/relaydocs/documentservice/service/DocumentService.java:179-182 | the reference listing holds exactly the documents the user may read |
| DocumentService.VisibleIffReadable | services/document-service/src/main/java/com/relaydocs/documentservice/persistence/DocumentRepository.java:10-17 | a document is visible exactly when the user owns it or holds any permission on it |
| DocumentService.VisibleDocumentsAscending | services/document-service/src/main/java/com/relaydocs/documentservice/persistence/DocumentRepository.java:15 | visible documents come in ascending id order, each once |
| DocumentService.VisibleDocumentsAreReadableInOrder | services/document-service/src/main/java/com/relaydocs/documentservice/persistence/DocumentRepository.java:10-17 | the query equals the table filtered by canRead, in key order |
| DocumentService.VisibleListing | services/document-service/src/main/java/com/relaydocs/documentservice/service/DocumentService.java:44-50 | each visible document, in order, rendered by toResponse |
| DocumentService.Updated | services/document-service/src/main/java/com/relaydocs/documentservice/service/DocumentService.java:82-114 | no field, not found and forbidden are refused in that order and change nothing; otherwise the given fields are written, no other document changes and one "document.updated" event is published, its document id a number |
| DocumentService.Shared | services/document-service/src/main/java/com/relaydocs/documentservice/service/DocumentService.java:116-167 | not found, not owner and self-share are refused in that order; otherwise the target is created if unknown, the pair's role is set, and "document.shared" then "permission.changed" are published |
| DocumentService.Created | services/document-service/src/main/java/com/relaydocs/documentservice/service/DocumentService.java:52-69 | a document owned by the actor is appended under the next id with no sharing, and "document.created" is published |
| DocumentService.ViewerUpdateForbidden | services/document-service/src/main/java/com/relaydocs/documentservice/service/DocumentService.java:90-92 | a viewer's update is forbidden and changes nothing |
| DocumentService.UpdatesLastWriteWins | services/document-service/src/main/java/com/relaydocs/documentservice/service/DocumentService.java:94-100 | of two updates the later given fields win, and a field neither gives keeps its value |
| DocumentService.ShareGrantsRole | services/document-service/src/main/java/com/relaydocs/documentservice/service/DocumentService.java:133-142 | after a share the target can read, can edit exactly as editor, and is listed once with the role |
| DocumentService.ShareLeavesOthersAlone | services/document-service/src/main/java/com/relaydocs/documentservice/service/DocumentService.java:133-140 | a share changes no other user's access and no other document's |
| DocumentService.ReshareOverwritesRole | services/document-service/src/main/java/com/relaydocs/documentservice/service/DocumentService.java:133-136 | sharing again overwrites the role instead of adding a second permission |
| DocumentService.ShareMakesVisible | services/document-service/src/main/java/com/relaydocs/documentservice/service/DocumentService.java:116-142 | the shared document appears in the target's listing |
| DocumentService.CreatedVisibleToOwnerOnly | services/document-service/src/main/java/com/relaydocs/documentservice/service/DocumentService.java:52-56 | a new document is visible to its owner and to no one else |
| DocumentService.GatewayRoleAccepted | services/document-service/src/main/java/com/relaydocs/documentservice/domain/PermissionRole.java:12-18 | the gateway's role names are accepted by the service's role parser as the same roles |
| DocumentService.CreatedKeepsValid | services/document-service/src/main/java/com/relaydocs/documentservice/service/DocumentService.java:52-56 | creation keeps ids unique and ascending, and owners and permission holders registered |
| DocumentService.UpdatedKeepsValid | services/document-service/src/main/java/com/relaydocs/documentservice/service/DocumentService.java:82-102 | an update keeps the tables valid |
| DocumentService.SharedKeepsValid | services/document-service/src/main/java/com/relaydocs/documentservice/service/DocumentService.java:116-140 | a share keeps the tables valid; no permission ever names the owner |
| DocumentService.DocumentStore.GetOrCreateUser | services/document-service/src/main/java/com/relaydocs/documentservice/service/DocumentService.java:174-177 | the users table becomes WithUser and nothing else changes |
| DocumentService.DocumentStore.CreateDocument | services/document-service/src/main/java/com/relaydocs/documentservice/service/DocumentService.java:52-69 | reply, tables and events are those of Created; the id counter advances and the tables stay valid |
| DocumentService.DocumentStore.GetDocument | services/document-service/src/main/java/com/relaydocs/documentservice/service/DocumentService.java:71-80 | the reply is Fetched and nothing changes |
| DocumentService.DocumentStore.ListVisibleDocuments | services/document-service/src/main/java/com/relaydocs/documentservice/service/DocumentService.java:44-50 | the reply is VisibleListing |
| DocumentService.DocumentStore.UpdateDocument | services/document-service/src/main/java/com/relaydocs/documentservice/service/DocumentService.java:82-114 | reply, tables and events are those of Updated, and the tables stay valid |
| DocumentService.DocumentStore.ShareDocument | services/document-service/src/main/java/com/relaydocs/documentservice/service/DocumentService.java:116-167 | reply, tables and events are those of Shared, and the tables stay valid |
| PermissionRole.LowerName | services/document-service/src/main/java/com/relaydocs/documentservice/service/DocumentService.java:201 | a role's lower-case name is "viewer" or "editor" and upper-cases to its constant name |
| PermissionRole.FromValue | services/document-service/src/main/java/com/relaydocs/documentservice/domain/PermissionRole.java:12-18 | null is refused as "Role is required"; otherwise accepted exactly for "viewer" or "editor" in any letter case |
| PermissionRole.LowerNameRoundTrip | services/document-service/src/main/java/com/relaydocs/documentservice/domain/PermissionRole.java:12-18 | every role reads back from its lower-case name and from its constant name |
| PermissionRole.OwnerIsNotARole | services/document-service/src/main/java/com/relaydocs/documentservice/domain/PermissionRole.java:7-9 | "owner" is refused |
| Ordering.SortedStrings | services/document-service/src/main/java/com/relaydocs/documentservice/service/DocumentService.java:198 | the set's elements, each once, in strictly ascending compareTo order |
| Ordering.AscendingListingUnique | services/document-service/src/main/java/com/relaydocs/documentservice/service/DocumentService.java:196-202 | there is only one strictly ascending listing of a set |
| AuthService.SignedUp | services/document-service/src/main/java/com/relaydocs/documentservice/service/AuthService.java:26-46 | both fields are trimmed; blank ones and a taken name are refused and change nothing; otherwise the user and the hashed credential are stored under the trimmed name |
| AuthService.LoggedIn | services/document-service/src/main/java/com/relaydocs/documentservice/service/AuthService.java:48-61 | succeeds exactly when the trimmed name has a credential the untrimmed password matches, returning the trimmed name; else "Invalid credentials" |
| AuthService.SignupThenLogin | services/document-service/src/main/java/com/relaydocs/documentservice/service/AuthService.java:27-61 | after a signup whose trimmed password is within BCrypt's 72 UTF-8 bytes, login under any padding of the name succeeds with the trimmed password, and with no other password of at most 72 bytes |
| AuthService.PaddedPasswordRefused | services/document-service/src/main/java/com/relaydocs/documentservice/service/AuthService.java:29-56 | a password of at most 72 UTF-8 bytes typed with surrounding blanks at signup is refused at login when typed the same way |
| AuthService.SignupOnce | services/document-service/src/main/java/com/relaydocs/documentservice/service/AuthService.java:35-37 | a registered name cannot be registered again under any padding, while other names still can |
| AuthService.UnknownUserLikeWrongPassword | services/document-service/src/main/java/com/relaydocs/documentservice/service/AuthService.java:53-58 | an unknown user and a wrong password get the same reply |
| AuthService.LockoutKeyIgnoresTrim | services/document-service/src/main/java/com/relaydocs/documentservice/service/AuthService.java:50 | " bob" and "bob" are one account but two lockout keys |
| AuthService.AccountStore.Signup | services/document-service/src/main/java/com/relaydocs/documentservice/service/AuthService.java:26-46 | reply and tables are those of SignedUp |
| AuthService.AccountStore.Login | services/document-service/src/main/java/com/relaydocs/documentservice/service/AuthService.java:48-61 | the reply is LoggedIn and nothing changes |
| ApiExceptionHandler.Handle | services/document-service/src/main/java/com/relaydocs/documentservice/api/ApiExceptionHandler.java:20-43 | 404, 403 and 401 exactly for their exceptions, with the exception's message; every bad request and validation failure is 400 "Invalid request" |
| ApiExceptionHandler.BadRequestMessageDiscarded | services/document-service/src/main/java/com/relaydocs/documentservice/api/ApiExceptionHandler.java:35-43 | a bad request's own message never reaches the client |
| ConsumedEvents.RecordedIfNew | services/document-service/src/main/java/com/relaydocs/documentservice/events/ConsumedEventRecorder.java:23-46 | processed exactly when the (consumer, event id) pair is new, and then one row is appended; a duplicate changes nothing; pair uniqueness is kept |
| ConsumedEvents.DuplicateIgnoresOtherFields | services/document-service/src/test/java/com/relaydocs/documentservice/events/ConsumedEventRecorderTest.java:26-43 | a repeat of the pair is a duplicate whatever its other fields |
| ConsumedEvents.OtherConsumerRecordedSeparately | services/document-service/src/main/java/com/relaydocs/documentservice/events/ConsumedEventEntity.java:17 | the same event id under another consumer is recorded |
| ConsumedEvents.UniqueCountAtMostOne | services/document-service/src/main/java/com/relaydocs/documentservice/events/ConsumedEventEntity.java:17 | under the unique constraint a pair has exactly one row when present and none otherwise |
| ConsumedEvents.RecordKeepsPairs | services/document-service/src/main/java/com/relaydocs/documentservice/events/ConsumedEventRecorder.java:39-45 | recording never removes a pair |
| ConsumedEvents.RunRecordsEachPairOnce | services/document-service/src/test/java/com/relaydocs/documentservice/events/ConsumedEventRecorderTest.java:26-43 | however often events are redelivered, each delivered pair ends with exactly one row |
| ConsumedEvents.ConsumedEventRecorder.RecordIfNew | services/document-service/src/main/java/com/relaydocs/documentservice/events/ConsumedEventRecorder.java:23-46 | reply and rows are those of RecordedIfNew, and the call is logged |
| KafkaEventConsumer.TextOrNull | services/document-service/src/main/java/com/relaydocs/documentservice/events/KafkaDomainEventConsumer.java:91-97 | the text of a textual member, and nothing for a missing, null or other member |
| KafkaEventConsumer.RequireText | services/document-service/src/main/java/com/relaydocs/documentservice/events/KafkaDomainEventConsumer.java:83-89 | the member's text when it is not blank, else the missing-field error naming it |
| KafkaEventConsumer.ParseInstant | services/document-service/src/main/java/com/relaydocs/documentservice/events/KafkaDomainEventConsumer.java:99-104 | absent or blank text is no instant; other text must parse |
| KafkaEventConsumer.Hex | services/document-service/src/main/java/com/relaydocs/documentservice/events/KafkaDomainEventConsumer.java:110-113 | two lower-case hex digits per byte |
| KafkaEventConsumer.HexOf | services/document-service/src/main/java/com/relaydocs/documentservice/events/KafkaDomainEventConsumer.java:110-114 | the StringBuilder loop builds exactly Hex of the digest |
| KafkaEventConsumer.HexPairDecodes | services/document-service/src/main/java/com/relaydocs/documentservice/events/KafkaDomainEventConsumer.java:112 | "%02x" of a signed byte gives the high and low nibble of its unsigned value |
| KafkaEventConsumer.HexRoundTrip | services/document-service/src/main/java/com/relaydocs/documentservice/events/KafkaDomainEventConsumer.java:106-118 | decoding the hex gives the digest's bytes back |
| KafkaEventConsumer.DigestIdShape | services/document-service/src/main/java/com/relaydocs/documentservice/events/KafkaDomainEventConsumer.java:106-118 | a SHA-256 digest gives a 64-character lower-case hex id |
| KafkaEventConsumer.EventId | services/document-service/src/main/java/com/relaydocs/documentservice/events/KafkaDomainEventConsumer.java:46-49 | the event's own id when it is textual and not blank, else the hex digest of the raw text |
| KafkaEventConsumer.Extracted | services/document-service/src/main/java/com/relaydocs/documentservice/events/KafkaDomainEventConsumer.java:41-51 | invalid JSON, then a missing eventType, then a missing aggregateId, then a bad occurredAt are refused in that order; otherwise the fields are taken |
| KafkaEventConsumer.HandleEvent | services/document-service/src/main/java/com/relaydocs/documentservice/events/KafkaDomainEventConsumer.java:41-73 | a refused event reaches no recorder; an accepted one is offered to it once |
| KafkaEventConsumer.RedeliveryIsDuplicate | services/document-service/src/main/java/com/relaydocs/documentservice/events/KafkaDomainEventConsumer.java:53-58 | the same raw event delivered again to the same consumer is a duplicate |
| KafkaEventConsumer.FallbackIdsFollowDigests | services/document-service/src/main/java/com/relaydocs/documentservice/events/KafkaDomainEventConsumer.java:46-49 | events without their own id get different ids when their digests differ |
| JavaString.Trim | services/document-service/src/main/java/com/relaydocs/documentservice/service/AuthService.java:28 | the result has no leading or trailing character at or below U+0020, and is empty exactly when the input has only such characters |
| JavaString.TrimIdempotent | services/document-service/src/main/java/com/relaydocs/documentservice/service/AuthService.java:28 | trimming twice is trimming once |
| JavaString.Utf8Length | services/document-service/src/main/java/com/relaydocs/documentservice/service/AuthService.java:42 | the UTF-8 length BCrypt works on: between one and four bytes per code point |
| JavaString.TrimShortensUtf8 | services/document-service/src/main/java/com/relaydocs/documentservice/service/AuthService.java:28 | trimming never lengthens the UTF-8 encoding |
| AsciiCase.ToLowerEqualIffSameIgnoringCase | apps/gateway/src/security/authLockout.ts:13 | two strings lower-case alike exactly when they differ only in letter case |
| WebSession.ParseStoredSession | apps/web/src/auth/session.ts:8-27 | a session exactly when the stored JSON has a non-blank token and user id, which are kept as stored |
| WebSession.InferUserIdFromToken | apps/web/src/auth/session.ts:29-38 | the trimmed rest of a dev token when it is non-empty, else "jwt-user" |
| WebSession.DevTokenNamesUser | apps/web/src/auth/session.ts:30-34 | a dev token names its user trimmed, and a blank one falls back to "jwt-user" |
| WebSession.ClientAndGatewayAgreeOnDevUser | apps/web/src/auth/session.ts:29-38 | for an unpadded dev token the client shows the user the gateway authenticates |
| WebSession.StoredSession | apps/web/src/auth/session.ts:40-48 | an absent or empty stored value is no session; otherwise it is parsed |
| WebSession.ReadAuthSession | apps/web/src/auth/session.ts:40-48 | the reply is StoredSession of the storage |
| WebSession.SaveAuthSession | apps/web/src/auth/session.ts:50-52 | the session's JSON is stored under the session key and nothing else changes |
| WebSession.ClearAuthSession | apps/web/src/auth/session.ts:54-56 | the session key is removed and nothing else changes |
| WebSession.AuthToken | apps/web/src/auth/session.ts:58-66 | the stored token when there is a session, else "Not authenticated" |
| WebSession.SaveThenRead | apps/web/src/auth/session.ts:40-52 | a saved session reads back as itself when neither field is blank, and as none otherwise |
| WebSession.ClearThenRead | apps/web/src/auth/session.ts:54-66 | after clearing there is no session and no token |
| WebApp.ForbiddenWording | apps/web/src/App.tsx:39-47 | each action's wording is unpadded and is neither "Forbidden" nor the fallback |
| WebApp.ToFriendlyErrorMessage | apps/web/src/App.tsx:27-48 | the message shown is never empty or padded |
| WebApp.NonErrorIsFallback | apps/web/src/App.tsx:30-32 | a thrown non-Error is shown as the fallback |
| WebApp.OtherMessagesShownTrimmed | apps/web/src/App.tsx:34-37 | a message other than "Forbidden" is shown trimmed, and a blank one as the fallback |
| WebApp.ForbiddenWordedByAction | apps/web/src/App.tsx:39-47 | "Forbidden", however padded, is worded by the refused action |
| WebApp.FriendlyMessageIsStable | apps/web/src/App.tsx:27-48 | a shown message, thrown again, is shown unchanged in any context |
| WebApp.NeverShownAsForbidden | apps/web/src/App.tsx:35-47 | the page never shows the bare word "Forbidden" |
| WebApp.UnpaddedMessageShownAsIs | apps/web/src/App.tsx:34-36 | an unpadded message other than "Forbidden" is shown as it is |
| WebApp.ForbiddenWordingsDistinct | apps/web/src/App.tsx:39-47 | the three actions are worded apart |
| WebApp.ServiceRefusalWorded | apps/web/src/App.tsx:34-47 | the document service's 403 reaches the page as the wording of the refused action |
| SessionPrompt.EscapedHeadingIsLiteral | scripts/generate-next-session-prompt.mjs:17 | the escaped heading is a pattern matching exactly the heading's text |
| SessionPrompt.FindHeading | scripts/generate-next-session-prompt.mjs:18-22 | a match found from p lies within the text from p on; FindHeadingIsLeftmost states it is the leftmost match |
| SessionPrompt.FindHeadingIsLeftmost | scripts/generate-next-session-prompt.mjs:18-19 | the match found is a match of the heading pattern, and none starts before it |
| SessionPrompt.SectionFrom | scripts/generate-next-session-prompt.mjs:24-28 | its lemma SectionFromHasNoHeading states that the section holds no heading line; ExtractSection states it is trimmed |
| SessionPrompt.ExtractSection | scripts/generate-next-session-prompt.mjs:16-29 | the section is trimmed and holds no level-two heading line |
| SessionPrompt.SectionFromHasNoHeading | scripts/generate-next-session-prompt.mjs:24-28 | the text up to the next heading line holds no heading line |
| SessionPrompt.NoHeadingNoSection | scripts/generate-next-session-prompt.mjs:20-22 | without a matching heading the section is empty |
| SessionPrompt.SplitJoin | scripts/generate-next-session-prompt.mjs:33-37 | splitting lines joined by "\n" gives them back |
| SessionPrompt.ItemsComeFromKeptLines | scripts/generate-next-session-prompt.mjs:31-37 | every item is the cleaned form of a kept line |
| SessionPrompt.KeptLinesAreItems | scripts/generate-next-session-prompt.mjs:35 | every kept line contributes its cleaned form |
| SessionPrompt.CleanListBlock | scripts/generate-next-session-prompt.mjs:31-37 | its lemmas state that the block splits into exactly the cleaned kept lines (CleanBlockLines, ItemsComeFromKeptLines, KeptLinesAreItems) |
| SessionPrompt.CleanBlockLines | scripts/generate-next-session-prompt.mjs:31-37 | a non-empty cleaned block splits into exactly the items |
| SessionPrompt.BulletBoxDropped | scripts/generate-next-session-prompt.mjs:36 | "- [x] text" is cleaned to "- text" for any mark that is one UTF-16 code unit and not a line terminator |
| SessionPrompt.NumberedBoxDropped | scripts/generate-next-session-prompt.mjs:36 | "3. [ ] text" is cleaned to "text", number and box both gone, for the same marks |
| SessionPrompt.AstralBulletKept | scripts/generate-next-session-prompt.mjs:36 | a bullet whose box holds a character above U+FFFF is kept unchanged |
| SessionPrompt.AstralNumberedKept | scripts/generate-next-session-prompt.mjs:36 | a numbered item whose box holds a character above U+FFFF is kept unchanged, number included |
| SessionPrompt.DateHeadingAtFindsEveryMatch | scripts/generate-next-session-prompt.mjs:45 | every way of reading "##", whitespace and a date at a position is the match found there |
| SessionPrompt.DateHeadings | scripts/generate-next-session-prompt.mjs:45 | every match of the g-flag search is "##", whitespace and a date |
| SessionPrompt.NoDateHeadings | scripts/generate-next-session-prompt.mjs:45-48 | the search finds nothing exactly when the pattern matches nowhere |
| SessionPrompt.LatestDecisionDate | scripts/generate-next-session-prompt.mjs:45-48 | the result is "unknown" or a date |
| SessionPrompt.LatestDecisionDateFound | scripts/generate-next-session-prompt.mjs:45-48 | "unknown" exactly when the log has no dated heading, and otherwise a date |
| SessionPrompt.LatestDecisionDateAsWritten | scripts/generate-next-session-prompt.mjs:45-48 | the as-written half of the finding; its lemmas state that it agrees with the date exactly for a single space after "##" (AsWrittenAgreesIffSingleSpace) and show the tab, two-space and line-break cases |
| SessionPrompt.AsWrittenAgreesIffSingleSpace | scripts/generate-next-session-prompt.mjs:47 | the script's value is the date exactly when the last heading has one space after "##" |
| SessionPrompt.OneDatedHeading | scripts/generate-next-session-prompt.mjs:45-48 | for a single dated heading the date is found, and the script reports it only after a leading space |
| SessionPrompt.TabSeparatedDateKeepsMarker | scripts/generate-next-session-prompt.mjs:47 | with a tab after "##" the script reports the whole heading |
| SessionPrompt.DoubleSpacedDateKeepsSpace | scripts/generate-next-session-prompt.mjs:47 | with two spaces after "##" the script reports the date after a space |
| SessionPrompt.BuildPrompt | scripts/generate-next-session-prompt.mjs:40-73 | the prompt as the script writes it, with the as-written date; PromptLines states its lines |
| SessionPrompt.PromptLines | scripts/generate-next-session-prompt.mjs:40-73 | the prompt's lines are the opening lines, the lines of the as-written date line, then each heading with the items of its section or its placeholder, then the execution requirements |
| SessionPrompt.PromptDateLine | scripts/generate-next-session-prompt.mjs:45-56 | the prompt holds the corrected date line as one line exactly when the log has no dated heading or its last one has a single space after "##" |
| SessionPrompt.NewlineSeparatedDateSplitsLine | scripts/generate-next-session-prompt.mjs:45-56 | for "##", a line break and a date, the script's date line breaks in two, the first ending in "##" |
| SessionPrompt.BuildPromptCorrected | scripts/generate-next-session-prompt.mjs:40-73 | the prompt with the corrected date; CorrectedPromptLines states its lines |
| SessionPrompt.CorrectedPromptLines | scripts/generate-next-session-prompt.mjs:40-73 | the corrected prompt's lines are the same, with the date of the last dated heading on one line |

## Left out

- Redis connection handling and store errors: the store is an optional map passed in, and a failing store call is not modelled (the source does not catch one either).
- Signing and verification of signed tokens (HS256, expiry) are a parameter `verify`/`sign`; BCrypt is a pair of parameters `encode`/`matches`; SHA-256 is a parameter `digest`; only the hex encoding of the digest is modelled.
- JSON parsing (`JSON.parse`, `ObjectMapper.readTree`, `JSON.stringify`) and `Instant.parse` are parameters; the parsed structure is the input.
- The clock is a parameter of each operation; the lock check and the failure record of one login may take different times.
- The Kafka consumer name is a parameter rather than read from the configuration properties.
- Concurrency: every map update is modelled as one sequential step, with no interleaving across `await` points or transactions.
- Logging, console output, HTTP wiring, controllers, the React components and the e2e tests are not part of this model.
- The script's file reads, its missing-file error, writing NEXT_SESSION_PROMPT.md and `process.cwd()` (a parameter `root`) are not modelled.
- Column length limits of the database (user ids of 100, event ids of 128 characters and so on) are not modelled; an over-long value is stored.
- AsciiCase.ToLower: `toLowerCase` and `toUpperCase(Locale.ROOT)` are ASCII-only here; Java and JavaScript also fold other letters (Java upper-cases the dotless ı of "vıewer" to "VIEWER").
- JsString.ParseInt: exact for integers; the rounding of `Number.parseInt` above 2^53 and `Infinity` are not modelled.
- JsString.Utf16Length: strings are sequences of Unicode scalar values; lengths in UTF-16 code units are derived from them, and lone surrogates cannot occur.
- Ordering.StringLess: compares Unicode scalar values, while Java's `compareTo` compares UTF-16 code units; they differ only for characters above U+FFFF against U+E000 to U+FFFF.
- DocumentService.Created: requires that no permission names the next id; the identity column guarantees this, and CounterIsFresh proves it for valid tables.
- DocumentService.Shared: the reply lists the permission just saved, as the source's reload of the document does.
- AuthService.SignupThenLogin: BCrypt's `matches` is constrained only for passwords of at most 72 UTF-8 bytes. Longer passwords that share their first 72 bytes match each other (newer Spring Security versions refuse them instead), so this lemma and PaddedPasswordRefused say nothing about login passwords longer than that; the gateway admits passwords of up to 128 characters.
- AuthService.SignedUp: the account store keeps its own users table; in the source it is the same table the document service writes.
- DocumentService.ToResponse: the response leaves out `createdAt` and `updatedAt`. The document entity sets them, and the entity is not part of this model, so the model does not say when an update changes `updatedAt`.

## Findings

| source | as written | input that shows it | evidently intended | confidence | as-written member | corrected member |
|---|---|---|---|---|---|---|
| scripts/generate-next-session-prompt.mjs:45-48 | the last match of `##\s+(\d{4}-\d{2}-\d{2})` with the g flag is the whole heading, and `.replace("## ", "")` strips only a single space after "##" | a decision log "##\t2025-01-31" reports "##\t2025-01-31"; "##  2025-01-31" reports " 2025-01-31"; "##\n2025-01-31" breaks the prompt's date line in two | the date of the last dated heading, "2025-01-31" | not executed; the pattern accepts any whitespace after "##", and the replacement assumes one space | SessionPrompt.LatestDecisionDateAsWritten | SessionPrompt.LatestDecisionDate |
