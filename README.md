# Greenlight request admission, validation and handler flow, in Dafny

This project models the core of greenlight, a JSON movie API written in Go on gin:

- the middleware that admits a request: the per-IP rate limiter with its client table and idle sweep, bearer-token authentication, the activation and permission checks, and CORS origin matching;
- the validators for tokens, users and movies, and the token and user services that insert into or update the store only when validation passes;
- the query and route parameter parsers, the error constructors, and `ErrorResponse`, which turns an error into a status and a JSON body;
- the movie handlers (create, show, update with its field merge, delete, list) and the user handlers (register, activate), as the sequence of store calls each makes and the reply it sends.

Each source file takes its own form here:

- The rate limiter's client table is a class whose field is a `map`. `Request` and `Sweep` change it, and a `while` loop does the sweep.
- The validator is a class whose list of `(field, message)` failures the `Validate*` methods extend. Each method is specified by a pure function that gives the failures it records.
- The handlers are methods. Each returns the reply together with the list of store calls it made.
- The pure decisions and constructors (`Authenticate`, `RequireActivated`, the error constructors, `Validate` for movies) are functions.

Text the request supplies is `Bytes`: header values, parameters, query values, names, emails, passwords, tokens, origins and addresses. This is because Go's `len` and comparisons count bytes. Text the server produces (codes, messages, field names) is `string`.

Several things are parameters of the model:

- The database is a record of functions, one per broker call, each giving that call's answer (`Models.Store`).
- The movie service the handlers call is `MovieHandlers.MovieApi`.
- The password hasher, the token generator and the email pattern are given as `UserHandlers.Externals`.
- Clock readings are integer nanoseconds passed in as `now`.

gin's handler chain is modelled by how each middleware exits (`Chain.Exit`); the rate limiter, `Authenticate`, `RequireActivated`, `RequirePermission` and CORS each return theirs:

- calling `Next`;
- calling `Abort`;
- returning without either.

In gin only `Abort` stops the handlers after the middleware, so a bare return still lets them run. A panic in a middleware is caught by `gin.Recovery` (registered first in routes/routes.go), which answers 500 and aborts; its verdict is `Panics`.

## Model

| member | source | states |
|---|---|---|
| GoText.ParseInt64 | handlers/helpers.go:45 | a parsed decimal (optional sign, digits only) lies in the int64 range; anything else is rejected |
| GoText.ParseItoa | handlers/helpers.go:45-50 | every int64 rendered in decimal by `Itoa` (Go's `%d`) parses back to itself |
| GoText.ItoaInjective | handlers/movies.go:48 | distinct ids render as distinct decimal strings |
| GoText.SplitProperties | handlers/helpers.go:66 | `Split`, Go's `strings.Split`, gives one more piece than there are separators, no piece contains the separator, and joining the pieces restores the input |
| GoText.SplitJoin | handlers/helpers.go:66 | splitting the join of separator-free pieces gives those pieces back |
| GoText.SplitIntoTwo | routes/middleware.go:116-117 | a value splits into exactly `[a, b]` iff it is `a`, one separator and `b`, with no separator in either part |
| Helpers.ReadIDParam | handlers/helpers.go:43-51 | accepted iff the parameter parses as an int64 that is at least 1; the id is that value; a rejection carries "invalid id parameter" |
| Helpers.ReadIDParamRoundTrip | handlers/helpers.go:45-50 | every id from 1 to the int64 maximum, written in decimal, reads back as itself |
| Helpers.ReadIDParamRejectsNonPositive | handlers/helpers.go:46-47 | "0" and every negative number are rejected |
| Helpers.ReadIDParamRejectsNonDigits | handlers/helpers.go:45-47 | a parameter with a non-digit character (other than a leading sign) is rejected |
| Helpers.ReadIDParamRejectsOverflow | handlers/helpers.go:45-47 | digits whose value exceeds the int64 maximum are rejected |
| Helpers.ReadCSV | handlers/helpers.go:56-67 | the default for an empty value; otherwise comma-free pieces, one more than the commas, whose join with "," is the value |
| Helpers.ReadInt | handlers/helpers.go:73-92 | the default and no new failure for an empty value; the default and exactly the failure `(key, "must be an integer value")` for a non-integer; the integer and no new failure otherwise |
| Helpers.ReadString | handlers/helpers.go:96-108 | the default for an empty value, the value itself otherwise |
| Errors.OriginalErrorDetails | handlers/errors.go:60-64 | no details iff there is no original error, else exactly `("original_error", its text)` |
| Errors.NotFoundError | handlers/errors.go:59-76 | wraps a handle error with status 404, code "NOT_FOUND", the not-found message and the original-error details |
| Errors.NotAllowedError | handlers/errors.go:78-95 | wraps a handle error with status 405, code "METHOD_NOT_ALLOWED", the raw message template and the original-error details |
| Errors.NotAllowedIgnoresMethod | handlers/errors.go:78-95 | the method argument makes no difference to the error built |
| Errors.StatusBadRequestError | handlers/errors.go:97-114 | wraps a handle error with status 400, code "BAD_REQUEST", the bad-request message and the original-error details |
| Errors.ErrorResponse | handlers/errors.go:48-57 | a handle error, found through any number of wraps (`AsHandleError`, Go's `errors.As`), answers with its own status and body; any other error answers 500 "internal server error" |
| Errors.ConstructorResponses | handlers/errors.go:48-114 | each constructor's error answers with exactly its status and body |
| Errors.ErrorResponseSeesThroughWraps | handlers/errors.go:50-52 | wrapping an error that holds a handle error does not change the response |
| Errors.TriageJSONError | handlers/errors.go:116-135 | EOF becomes "body must not be empty"; an unclassified error passes through unchanged (an invalid-unmarshal error panics, so it is excluded) |
| Errors.TriageNamesOffset | handlers/errors.go:118-119 | the syntax-error message determines the offset |
| Errors.TriageNamesField | handlers/errors.go:120-124 | the type-error message determines the field name, and without a field the offset |
| Errors.TriageNamesLimit | handlers/errors.go:127-128 | the oversize message determines the limit |
| Errors.EscapeInjective | handlers/errors.go:122 | `Quote`, the `%q` quoting of field names, is injective |
| Replies.StatusOf | handlers/errors.go:48-57 | an answered reply has its own status; a NotFound, BadRequest or NotAllowed rejection answers 404, 400 or 405 |
| Validation.Failing | internal/services/token.go:38-39 | a check records nothing iff it holds, else exactly its `(field, message)` |
| Validation.Recorded | internal/services/movie.go:54-69 | a run of checks records nothing iff every check holds, and at most one failure per check |
| Validation.RecordedContains | internal/services/movie.go:54-69 | a failure is recorded iff some check carrying it does not hold |
| Validation.RecordedIndependently | internal/services/movie.go:54-69 | a failure no other check carries is recorded iff its own check fails, whatever the others do |
| Validation.Validator.AddError | handlers/helpers.go:86 | appends exactly the one failure |
| Validation.Validator.Check | internal/services/token.go:38-39 | appends what `Failing` gives for the check, and nothing else |
| TokenService.PlainTextErrors | internal/services/token.go:38-39 | no failure iff the plaintext is non-empty and exactly 26 bytes; any 26 bytes pass; the empty plaintext gets both failures |
| TokenService.ValidatePlainText | internal/services/token.go:37-40 | the validator gains exactly the plaintext's failures |
| TokenService.Add | internal/services/token.go:42-52 | validates on a fresh validator; inserts iff valid, then returns the insert's error beside the valid validator; an invalid token returns its failures and no error |
| TokenService.RemoveAllForUser | internal/services/token.go:54-60 | one delete call with the scope and user id unchanged; its error is returned |
| UserService.EmailErrors | internal/services/user.go:35-36 | no failure iff the email is non-empty and matches the pattern; an empty email is always reported as not provided |
| UserService.ValidateEmail | internal/services/user.go:34-37 | the validator gains exactly the email's failures |
| UserService.PasswordErrors | internal/services/user.go:40-42 | no failure iff the password is 8 to 72 bytes long |
| UserService.ValidatePasswordPlaintext | internal/services/user.go:39-43 | the validator gains exactly the password's failures |
| UserService.NameErrors | internal/services/user.go:46-47 | no failure iff the name is non-empty and at most 500 bytes |
| UserService.PlaintextErrors | internal/services/user.go:54-56 | password checks apply only when a plaintext is present; without one nothing is recorded |
| UserService.UserErrorsEmpty | internal/services/user.go:45-66 | `UserErrors`, the failures `ValidateUser` records, is empty iff the name, email and (when present) plaintext password all pass; an empty email always fails |
| UserService.UserErrorsFields | internal/services/user.go:45-66 | every failure is about the name, the email, or the password when a plaintext is present |
| UserService.ValidateUser | internal/services/user.go:45-66 | the validator gains exactly the user's failures; a missing hash is a precondition (the source panics) |
| UserService.Add | internal/services/user.go:68-79 | inserts iff validation passed; an insert error is returned beside the validator; success stamps id, creation time and version |
| UserService.Edit | internal/services/user.go:81-91 | updates iff validation passed; an update error is propagated; success records the new version |
| UserService.FindByToken | internal/services/user.go:93-99 | one lookup with the given scope and plaintext; its user or error is returned |
| MovieService.MovieRules | internal/services/movie.go:54-69 | the eleven checks of a movie |
| MovieService.Validate | internal/services/movie.go:45-71 | no failure iff the title, year (against the current year), runtime and genres all pass; at most one failure per check |
| MovieService.MovieRulesDistinct | internal/services/movie.go:54-69 | no two checks share a failure message |
| MovieService.ValidateReportsEachFailure | internal/services/movie.go:54-70 | each of the eleven failures is reported iff its own check fails, independently of the others |
| MovieService.DuplicateGenreReported | internal/services/movie.go:69 | two equal genres at different positions are reported as duplicates |
| MovieService.Add | internal/services/movie.go:77-83 | one insert call; its error is returned, and success stamps the movie |
| Chain.ExitOf | routes/middleware.go:117-121 | a middleware that aborts on every rejection and panic lets later handlers run iff it proceeds |
| RateLimit.Fresh | routes/middleware.go:69 | a new limiter starts with a full bucket of `burst` tokens |
| RateLimit.AllowSpendsOneToken | routes/middleware.go:79 | `Allow` (x/time/rate's `Limiter.Allow`) admits iff the refilled bucket holds a token; an allowed request takes exactly one token from the refilled bucket; a refused one changes nothing; a valid bucket stays valid |
| RateLimit.EarnedNonNegative | routes/middleware.go:69 | a non-negative rate never earns negative tokens forward in time |
| RateLimit.EarnedAdds | routes/middleware.go:69 | tokens earned over consecutive spans add up |
| RateLimit.Run | routes/middleware.go:79-83 | a run of requests admits at most as many as it makes |
| RateLimit.RunPotential | routes/middleware.go:79-83 | over ascending request times, tokens in the bucket plus tokens spent never exceed the starting tokens plus what the rate earns |
| RateLimit.AdmittedBound | routes/middleware.go:67-83 | a fresh limiter, used at ascending times within a window, admits at most `burst` plus rate × elapsed |
| RateLimit.ReplayRunsClient | routes/middleware.go:57-87 | over any sequence of requests with no sweep in between, from any addresses, each step being `AdmitSpec` (which `RateLimiter.Request` performs), the requests of one address are admitted exactly as one limiter (its table entry, or a fresh one from its first request) admits their times, and its entry ends as that limiter |
| RateLimit.NewClientAdmittedBound | routes/middleware.go:57-87 | with no sweep in between, an address not yet in the table has at most `burst` plus rate × (time since its first request) requests admitted, whatever other addresses do |
| RateLimit.KnownClientAdmittedBound | routes/middleware.go:57-87 | with no sweep in between, an address already in the table has at most its tokens plus rate × (time since its limiter's last use) requests admitted |
| RateLimit.SweepRestoresBurst | routes/middleware.go:46-50 | with no refill and burst 1, a client seen at time 0 is refused just after the idle window if no sweep ran, but admitted if the sweep dropped it, two admissions against a bound of one |
| RateLimit.BurstThenRefill | routes/middleware.go:67-83 | at 2 per second with burst 4, five simultaneous requests admit four, and half a second later one more is admitted |
| RateLimit.Admit | routes/middleware.go:67-83 | adds an entry only for a new address, with a fresh limiter; stamps that address's last-seen time whether or not it is admitted; decides by its limiter; touches no other entry |
| RateLimit.AdmitSpec | routes/middleware.go:57-87 | disabled: proceeds and the table is untouched; an unsplittable address: 500 and the table is untouched; otherwise as `Admit`, refusing with 429 |
| RateLimit.FirstRequestPasses | routes/middleware.go:67-83 | the first request of a new address is admitted when the burst is at least one, adding exactly that entry |
| RateLimit.Swept | routes/middleware.go:46-50 | the sweep keeps exactly the entries seen within the last three minutes (strictly), unchanged |
| RateLimit.IdleClientStartsAfresh | routes/middleware.go:46-71 | an address swept as idle is treated as new on its next request |
| RateLimit.RateLimiter.constructor | routes/middleware.go:29-32 | starts with an empty client table |
| RateLimit.RateLimiter.Request | routes/middleware.go:57-87 | the verdict and new table are what `AdmitSpec` gives for the old table; as written, a rejection exits by a bare return, so the later handlers still run (see Findings) |
| RateLimit.RateLimiter.Sweep | routes/middleware.go:46-50 | a loop over the table leaves exactly what `Swept` keeps |
| RateLimit.RateLimitExitAsWritten | routes/middleware.go:57-87 | as written, an admitted request calls next and a rejected one returns without aborting |
| RateLimit.RefusedRequestStillHandled | routes/middleware.go:79-83 | as written, a client with no tokens is refused with 429 and the route handler still runs |
| RateLimit.RefusedRequestStopped | routes/middleware.go:79-83 | with an abort after the refusal, the route handler does not run |
| Middleware.BearerToken | routes/middleware.go:116-136 | a token is taken only from a header splitting into "Bearer" and a 26-byte token |
| Middleware.BearerTokenShape | routes/middleware.go:116-124 | a token `t` is taken iff the header is "Bearer", one space and `t`, with `t` 26 bytes long and free of spaces |
| Middleware.Authenticate | routes/middleware.go:90-161 | an empty header is anonymous and proceeds; any other header without a well-formed bearer token is an invalid-token rejection with no lookup; every rejection aborts and every pass calls next; it proceeds iff the user ends anonymous or known; a lookup happens iff the header has a well-formed bearer token, in the authentication scope; a known user is the one the lookup found |
| Middleware.AuthenticateLookup | routes/middleware.go:142-159 | not found rejects as an invalid token; any other lookup error is a 500; a found user is stored and the request proceeds |
| Middleware.UnknownTokenLikeMalformedHeader | routes/middleware.go:116-152 | an unknown token is answered exactly as a malformed header |
| Middleware.BearerIsCaseSensitive | routes/middleware.go:117 | "bearer" in lower case never reaches the lookup |
| Middleware.RequireActivated | routes/middleware.go:163-191 | proceeds iff the user is known and activated; a missing, wrong-typed or anonymous user needs authentication; a known inactive user is refused as inactive; a refusal aborts, a pass calls next |
| Middleware.RequirePermission | routes/middleware.go:193-213 | without a user in the context, the nil dereference panics before any lookup; otherwise one lookup of the user's permissions (the anonymous user's id is 0); 500 on its error; refused unless the code is among them; proceeds otherwise; every refusal aborts |
| Middleware.Cors | routes/middleware.go:215-253 | the origin is allowed iff it is non-empty and exactly equals a trusted entry; a preflight (allowed origin, OPTIONS, non-empty requested method) returns 200 without calling next |
| MovieHandlers.LookupFailure | handlers/movies.go:60-69 | record not found answers 404 carrying the error text; any other error answers 500 |
| MovieHandlers.MovieLocationNamesMovie | handlers/movies.go:48 | the id at the end of a created movie's Location reads back, as an id parameter, as that movie's id |
| MovieHandlers.CreateMovie | handlers/movies.go:16-51 | a bad body is a 400; any validator is a failed validation; an add error is a 400; success is 201 with the movie and the Location "/v1/movies/<id>" |
| MovieHandlers.ShowMovie | handlers/movies.go:53-72 | an invalid id is a 404 before any lookup; a lookup error is mapped as `LookupFailure`; success is 200 with the movie |
| MovieHandlers.Merged | handlers/movies.go:106-119 | each of title, year, runtime and genres is overwritten iff supplied; id, creation time and version are kept |
| MovieHandlers.MergedIdentityAndIdempotent | handlers/movies.go:106-119 | an empty patch changes nothing, and a patch applied twice is the patch applied once |
| MovieHandlers.MergedChangesOnlySupplied | handlers/movies.go:106-119 | a field changes only to the value the client supplied for it |
| MovieHandlers.UpdateMovie | handlers/movies.go:74-136 | an invalid id is a 404 before any lookup; then lookup, body, merge and edit, in that order; a validator takes precedence over the edit error; an edit conflict answers the edit-conflict error, other errors 500; success is 200 with the movie |
| MovieHandlers.DeleteMovie | handlers/movies.go:138-160 | an invalid id is a 404 before any removal; a removal error is mapped as `LookupFailure`; success is 200 "movie successfully deleted" |
| MovieHandlers.InvalidIdIsNotFound | handlers/movies.go:54-58 | an invalid id answers 404 with the reason "invalid id parameter" as its original error |
| MovieHandlers.ListFilter | handlers/movies.go:176-182 | the filter always carries the eight-key sort safelist |
| MovieHandlers.ListDefaults | handlers/movies.go:170-182 | without query parameters: page 1, page size 20, sort "id", no title or genre filter, no failures; the safelist has eight distinct keys |
| MovieHandlers.ListMovies | handlers/movies.go:162-196 | the failures are the page and page-size parse failures then the filter's; any failure answers failed validation without a query; otherwise one query with the title, genres and filter; its error is a 500; success is 200 with movies and metadata |
| UserHandlers.NewUser | handlers/users.go:34-46 | a registration's user is not activated and holds both the plaintext and the hash |
| UserHandlers.NewUserValid | handlers/users.go:34-47 | a registration's user passes validation iff its name, email and 8-to-72-byte password pass |
| UserHandlers.GrantAndIssue | handlers/users.go:63-94 | grants "movies:read" first; only then generates a three-day activation token and stores it if valid; each error is a 500 (an invalid token a failed validation); success is 202 with the user |
| UserHandlers.Register | handlers/users.go:15-95 | a bad body is a 400, a hashing error a 500; failed validation is reported before any insert; a duplicate email is the failure `("email", "a user with this email address already exists")`; the permission grant follows only a successful insert; a grant or token-generation error is a 500, an invalid token a failed validation, a token-insert error a 500; a 202 reply carries a non-activated user after exactly insert, grant and the insert of the token generated for that user in the activation scope with a three-day lifetime |
| UserHandlers.Activate | handlers/users.go:97-140 | a bad body is a 400; the token format is checked before any lookup; the lookup is in the activation scope, not found being the failure `("token", "invalid or expired activation token")`; the user is set activated and edited; tokens are removed only when the edit did not fail; a 200 reply carries an activated user and ends with that removal |

## Left out

- Errors.ErrorResponse: the `app.LogError` call on both paths (handlers/errors.go:51,55) is logging I/O; the model keeps no trace of it.
- Middleware.RequirePermission: the `Panics` verdict stands for `gin.Recovery`'s 500; Recovery's own log line and empty body are not modelled.
- Metrics (routes/middleware.go:255-281): global expvar counters and wall-clock durations, which are instrumentation.
- The sweep goroutine, `time.Sleep` and the mutex: concurrency. The sweep is the sequential method `RateLimiter.Sweep`, called with an explicit `now`.
- `golang.org/x/time/rate` is not part of this model. The limiter is a token bucket over integer nanoseconds with `real` tokens. It starts full, earns `rps` per second up to `burst`, and spends one token per allowed request. Floating-point rounding, the infinite rate, negative rates and the reservation API are not modelled.
- RateLimit.AdmittedBound: the per-client bound `burst` + rate × elapsed holds only between sweeps. The sweep (routes/middleware.go:46-50) drops a client idle for more than three minutes, and its next request starts from a full burst (`IdleClientStartsAfresh`). When rate × 180 s is less than `burst`, a window that contains a sweep can admit more (`SweepRestoresBurst`).
- RateLimit.RateLimiter.Request: the source reads the clock twice (for `lastSeen` and inside `Allow`); the model uses one `now` for both.
- `net.SplitHostPort` is not modelled; its result is the `host` parameter of `RateLimiter.Request`.
- The brokers, SQL, connection pools, SHA-256 token hashing and database/postgres.go: the store is the record of answers `Models.Store`.
- `ReadJSON` and JSON decoding: a handler's body parameter is the decoded input or the decoding error's text.
- `validator.EmailRX` is not part of this model: whether an email matches is the `emailRX` parameter.
- The `internal/validator` package is not part of this model. The validator is the ordered list of recorded failures, with no de-duplication and `Valid()` meaning the list is empty. If the package keeps one message per field, the JSON body lists fewer messages than the model; validity is the same either way.
- The `internal/models` package is not part of this model. `AnonymousUser` is the `Anonymous` context value, `Permissions.Include` is sequence membership, and `GenerateToken` and bcrypt's `Password.Set` are the `Externals` parameters.
- The welcome email that `RegisterUserHandler` sends through `app.Background`: a goroutine with SMTP I/O.
- The `Vary` headers and the constant preflight `Access-Control-Allow-*` headers in CORS and Authenticate: response headers with fixed values.
- The 500, failed-validation, edit-conflict, rate-limit, authentication and permission error constructors are defined in a handlers file that is not part of this model. They appear as `Errors.Rejection` cases, without status or body.
- `Errors.TriageJSONError` quotes the field name with `%q` by escaping `"`, `\`, newline, tab and carriage return with a backslash. Go's escapes of other control and non-printable characters are not modelled.
- The movie handlers call a movie service whose `Add`/`Edit` return a validator and which has `FindAll`. internal/services/movie.go as shown has neither, and its `FindByID`, `Edit` and `RemoveByID` are stubs returning nil. The handlers are therefore modelled over `MovieApi`, and the stubs are not modelled.
- The `filter` package (`Filter.Validate`, `FindAll`'s metadata) is not part of this model: the filter's failures are the `filterErrors` parameter of `ListMovies`.
- The year (int32) and runtime widths of the movie fields: the model's integers are unbounded, and JSON decoding would reject an out-of-range value before the handler.
- handlers/tokens.go, internal/services/permissions.go, routes/routes.go, routes/errors.go, cmd.go, app/app.go, text.go and handlers/healthcheck.go: token issuing with bcrypt and randomness, a pass-through wrapper, routing tables, configuration and process glue, embedded files and a static response.
- UserHandlers.Activate: the source drops the validator that `Edit` returns. A found user that fails validation is therefore not saved, yet the handler removes its tokens and answers 200 with the user shown as activated. The model keeps this as written.
- Middleware.Cors: a preflight ends with a bare return, not `Abort`. Under gin the later handlers still run after the 200 is written. The model keeps this as written (`Returns`), and CORS is not registered in routes/routes.go.

## Findings

| source | as written | input that shows it | evidently intended | confidence | as-written member | corrected member |
|---|---|---|---|---|---|---|
| routes/middleware.go:79-83 | a request refused with 429 (and one whose address cannot be split, lines 60-63) returns from the middleware without `c.Abort()`; gin's `Next` loop then runs the route handler anyway, after the error body is written | limiter enabled and a client whose bucket holds less than one token at the request's time | the refused request stops the chain, as `Authenticate` and the other middleware do with `c.Abort()` | not executed | RateLimit.RefusedRequestStillHandled | RateLimit.RefusedRequestStopped |
