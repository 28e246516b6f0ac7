# restaurantAPI request pipeline, in Dafny

This project models the core of the restaurantAPI Go backend: the request pipeline in
front of its handlers and the validation and bookkeeping rules under it. The pipeline
has four stages: panic recovery, the fixed-window rate limiter, bearer-token
authentication with a Redis cache in front of PostgreSQL, and the
authentication/activation/permission gates. Under it sit these rules:

- the validator's error map;
- pagination and sort arithmetic;
- the token, permission, user and restaurant tables with their error mappings;
- the user handlers: signup, profile update, activation, login, and the password-reset ownership gate.

The model has one module per Go file:

| module | Go file |
|---|---|
| `Validator` | `internal/validator/validator.go` |
| `Filters` | `internal/models/filters.go` |
| `Menu` | the sort whitelist of `internal/models/menu.go` |
| `Tokens` | `internal/models/tokens.go` |
| `Permissions` | `internal/models/permissions.go` |
| `Users` | `internal/models/users.go` |
| `Restaurants` | `internal/models/restaurant.go` |
| `ModelErrors` | `internal/models/models.go` |
| `Middleware` | `cmd/api/middleware.go`, with the caller identity of `cmd/api/context.go` as an explicit value |
| `UserHandlers` | `cmd/api/users.go` |

Four support modules model library behaviour the code relies on:

- `Wrappers`: Option and Result.
- `Text`: Go's UTF-8 `len`, `strings.Split`/`Join`/`Contains`/`HasPrefix`, and `strconv.FormatInt`/`ParseInt`.
- `Base32`: the unpadded encoding of section 6 of RFC 4648, with a decoder serving as its inverse.
- `Rows`: index search and row removal over a table.

How the model is built:

- **Values and state.** Entities that are values are datatypes: `User`, `Restaurant`, `Token`, `Filters`. Objects whose fields the code updates are classes:
  - `Validator.Validator`;
  - the table models `UserModel`, `TokenModel`, `PermissionModel` and `RestaurantModel`, whose fields are `seq`s standing for the tables;
  - `Middleware.Application`, with the Redis keyspace as a `map` field and the tables as fields.
- **Loops.** The code's loops are methods with loop invariants (`Filters.SortColumn`, `Permissions.PermissionModel.GetForAllUser`). Each is proved equal to a specification function.
- **Crypto and the regex.** SHA-256 is an injective symbolic digest (`Tokens.Digest`). bcrypt is a symbolic hash recording its secret, salt and cost. The email regular expression is a function parameter.
- **Randomness and time.** Random bytes and bcrypt salt are inputs, and `None` stands for a failure. The clock is an input, in nanoseconds.
- **Store failures.** Every store call that can fail takes an `Option<string>` fault: the driver's error text. Unique-constraint violations are computed from table state and carry lib/pq's message text.
- **Cache expiry.** Redis TTLs are deadlines checked when a key is read.

## Behaviour as written

The model follows the code where it departs from its evident intent, with one
exception, the token lookup, which is modelled both ways (see "## Findings"). Lemmas
state the consequences:

- **Inverted validation checks.** `ValidateTokenPlaintext` and `ValidateFilters` hand `Check` the condition under which the input is *good*, so they reject good input.
  - `Tokens.TokenPlaintextAsWritten`: a fresh validator stays valid exactly for the empty token.
  - `Tokens.GeneratedTokensRejected`: every generated token is rejected.
  - Consequence in `Middleware.Application.Authenticate`: only the header `"Bearer "` can reach the cache or the database, and any known caller it passes came from that header.
  - `Filters.ValidateFiltersAsWritten`: "page" is flagged exactly when the page is in range, and "sort" exactly when the sort key is safelisted.
- **Token lookup ignores expiry and scope.** `GetByToken` matches on the hash alone. The expiry and scope that `Insert` stores (`internal/models/tokens.go:77`) are never consulted, although the activation handler's error message speaks of an "invalid or expired activation token". Were the lookup to return the row's user, as intended, `userActivateHandler` would activate with a token of any scope, expired or not. As written it activates nobody (see "## Findings").
- **Activation wipes the password hash.** `GetUser` never loads `password_hash`, and `Update` writes it back. So `Users.UserModel.Update` after `GetUser` stores an empty hash (`Users.LoadedUserHasNoHash`). The routed `PATCH /v1/users/:id` does this: `UserHandlers.UpdateUser` leaves the edited row with no hash. Activation would do the same under the intended token lookup (`UserHandlers.ActivateUser`).
  - After such a write, `password.Matches` always fails with "hash too short". Login then answers 500.
  - The password reset past its ownership gate always answers 500 (`UserHandlers.ResetUserPassword`).
- **A wrong login password is a 500.** The handler tests `err != nil || !ok`, so a mismatch is a 500, not invalid credentials.
- **Activation keeps going after some write failures.**
  - A duplicate-email or not-found failure of the write-back writes its response and goes on to delete the tokens. `writeJSON` (`cmd/api/helpers.go:28-29`) calls `WriteHeader` and then `Write` every time, so the first status is the one sent, but the later 500 or 200 body is appended to the first body. `UserHandlers.FirstWritten` models the status only.
  - Any other write-back failure returns without writing a response.
- **Update never reports a conflict.** `Update` never returns `ErrConflictEdit`, so `updateUserHandler`'s edit-conflict branch is unreachable (`resp != EditConflict`).
- **The gate's anonymity test is dead code.** `requirePermissions` runs behind the authentication gate, so its own anonymity test is never reached.
- **The burst setting is unused.** The rate limiter reads `Rps` only and ignores the configured burst.
- **Grants are not idempotent.** Each `AddForUser` inserts one more row per matching code, so granting a code twice stores it twice and `GetForAllUser` returns it twice. The schema of `users_permissions` is not part of this model, and the grant table has no key.
- **A scan that breaks off is a success.** The loop of `internal/models/permissions.go:40-51` never consults `rows.Err()` after `rows.Next()` stops, so a result set that fails part-way is returned as the codes read so far, with no error. `Permissions.PermissionModel.GetForAllUser` takes the break-off point as a parameter (`breakOff`), and `Middleware.Application.RequirePermissions` takes it from the environment (`permissionBreakOff`). Such a scan can only refuse a request the full table would have let through (`Permissions.BrokenScanIsPrefix`), never the reverse.
- **No composition order is fixed by the code.** `cmd/api/route.go:9-21` registers three handlers and wraps none of them in middleware. `Middleware.Application.Serve` composes the middleware in the order their wrappers imply: panic recovery outermost, then rate limit, authenticate, the route's gate, the handler. The gates nest as the code nests them: `requirePermissions` wraps `requiredActivatedUser`, which wraps `requiredAutheicatedUser` (`cmd/api/middleware.go:180, 207`).
- **The seller signup is unreachable as routed.** `cmd/api/route.go:18` sends only `POST /v1/users` to `createUserHandler`, so the seller branches of `cmd/api/users.go:35-37` and `84-91` (`UserHandlers.RoleFor`, the write grant) are never taken by a routed request.
- **The token cache is never filled.** No code writes a `token:<t>` key. The only cache writes are the rate counter (`cmd/api/middleware.go:51-52`) and `user:<id>` (`cmd/api/middleware.go:144`). So the cache-hit path of `Middleware.Application.Authenticate` and of `Middleware.Application.ResolveUserId` is never taken from a cache the application built. The model keeps that path for a cache filled from outside.
- **The mailer goroutine races with signup.** The goroutine of `cmd/api/users.go:75-80` assigns the handler's `err`, which lines 86-97 also assign and test.
  - A failed `Send` that lands between an assignment of `err` and its test (lines 86-87 or 93-94) turns a successful signup into a 500. Between lines 86 and 87 it also skips the read grant.
  - A nil from `Send` landing between lines 86 and 87 can hide a failed write grant and give a 201.
  - `UserHandlers.Register` models the handler without this race.
- **`main.go` does not match the middleware.**
  - `cmd/api/main.go` declares the limiter settings in lower case (`cfg.limiter` with `rps`, `burst`, `enabled`; defaults 2, 4 and true). The middleware reads `cfg.Limiter.Rps` and `cfg.Limiter.Enabled`.
  - The `application` struct has no `redis` field.
  - The model takes the limiter as a `Middleware.Limiter` value.
- **Tokens.** `cmd/api/users.go` reads `token.PlainToken`, but the token struct's field is `PlainHash`. The model uses the token's plaintext there.
- **GetByToken's scan.** It scans `SELECT *` into a single integer, so every hit is an error (see "## Findings").
  - `Tokens.TokenQuery` says which lookup a caller runs: `SelectStar` as written, or `SelectUserId` as intended.
  - `Middleware.Env.tokenQuery` and the `query` parameter of `UserHandlers.ActivateUser` take that choice.
  - With `SelectStar`, `Middleware.Application.Authenticate` passes a known caller only from a live `token:` cache key, which the code never writes. `UserHandlers.ActivateUser` never answers 200 and writes nothing.

## Model

| member | source | states |
|---|---|---|
| Validator.Validator.constructor | internal/validator/validator.go:12-16 | a new validator has an empty error map and is valid |
| Validator.ValidIffNoErrors | internal/validator/validator.go:20-22 | Valid() holds exactly when the error map is empty |
| Validator.Validator.AddError | internal/validator/validator.go:24-28 | the new map is the first-write-wins insertion of the key; the key is present afterwards and no earlier key is lost |
| Validator.AddErrorFirstWriteWins | internal/validator/validator.go:24-28 | an existing key keeps its message, a new key gets the message, the keys grow by exactly that key and every other entry is unchanged |
| Validator.Validator.Check | internal/validator/validator.go:30-34 | the new map is the conditional insertion of the key under the flag |
| Validator.CheckIsConditionalAddError | internal/validator/validator.go:30-34 | Check(false) leaves the map unchanged and Check(true) is AddError |
| Validator.CheckKeys | internal/validator/validator.go:30-34 | after Check the keys are the old keys plus the key iff the flag holds; old messages stay; a new key carries the message |
| Validator.Validator.Empty | internal/validator/validator.go:40-42 | true exactly for the empty string |
| Validator.PermittedValue | internal/validator/validator.go:44-46 | true iff the value occurs in the list, so false for an empty list |
| Filters.SortColumnOf | internal/models/filters.go:16-24 | a safelisted sort key with its leading "-" stripped, and "id" for any key not in the safelist |
| Filters.SortColumn | internal/models/filters.go:16-24 | the linear safelist search returns exactly SortColumnOf |
| Filters.SortDirection | internal/models/filters.go:26-31 | "DESC" iff the sort key starts with "-", otherwise "ASC" |
| Filters.SortDirectionIgnoresSafeList | internal/models/filters.go:26-31 | the direction does not depend on the safelist |
| Filters.Wrap64 | internal/models/filters.go:43-45 | 64-bit two's-complement wrap-around: the identity on int64 values and congruent to its argument modulo 2^64 |
| Filters.OffsetWithoutOverflow | internal/models/filters.go:43-45 | the offset is 0 on page 1, equals (page-1)*pageSize when that fits in int64, and is then non-negative for page >= 1 and pageSize >= 0 |
| Filters.PagesTile | internal/models/filters.go:39-45 | within the validated ranges, the next page starts where this page's offset plus limit ends |
| Filters.OffsetCanWrapNegative | internal/models/filters.go:43-45 | a positive page and page size whose product overflows give a negative offset |
| Filters.ValidateFilters | internal/models/filters.go:33-37 | the validator's map after the three checks, with the conditions as written |
| Filters.ValidateFiltersAsWritten | internal/models/filters.go:33-37 | "page" is flagged iff 1 <= page <= 10,000,000; "page_size" iff pageSize <= 100 and page >= 1; "sort" iff the key is safelisted |
| Menu.MenuSortColumn | internal/models/menu.go:45-58 | the four listed keys map to their columns, everything else to "m.id", and the result is always one of five identifiers |
| Menu.MenuOrderBy | internal/models/menu.go:45-64 | the ORDER BY column is one of five identifiers, the direction is exactly sortDirection, and an unsafe key orders by "m.id" |
| Menu.MenuDirectionIndependentOfColumn | internal/models/menu.go:64 | the direction cannot change when only the safelist, and so the column, changes |
| Text.Split | cmd/api/middleware.go:85 | strings.Split yields at least one part and no part contains the separator |
| Text.SplitJoin | cmd/api/middleware.go:85 | joining the parts of a split with the separator gives back the string |
| Text.ParseFormatInt | cmd/api/middleware.go:107 | the decimal text of an int64 parses back to the same value without error |
| Text.FormatIntInjective | cmd/api/middleware.go:144 | different ids print as different decimal strings |
| Base32.Encode | internal/models/tokens.go:47 | the encoding has ceil(8n/5) characters, all from A-Z and 2-7 |
| Base32.EncodeDecode | internal/models/tokens.go:47 | decoding the unpadded encoding gives back the bytes |
| Base32.SixteenBytesEncodeTo26 | internal/models/tokens.go:40-47 | sixteen bytes encode to 26 symbols of 26 UTF-8 bytes |
| Tokens.GenerateToken | internal/models/tokens.go:32-54 | the token carries the user, the scope and expiry now+ttl; a random-source failure is an error with no plaintext or hash; otherwise the hash is SHA-256 of a 26-character plaintext that decodes to the random bytes |
| Tokens.DistinctRandomDistinctTokens | internal/models/tokens.go:40-51 | different random bytes give different plaintexts and different hashes |
| Tokens.TokenModel.Insert | internal/models/tokens.go:71-82 | one row (hash, user, expiry, scope) is appended, or nothing changes on a failure |
| Tokens.TokenModel.New | internal/models/tokens.go:56-69 | a failure of generation or insert returns no token and inserts nothing; otherwise the generated token is returned and its row appended |
| Tokens.FirstWithHash | internal/models/tokens.go:84-106 | None iff no row has the digest; otherwise the user of a row with that digest |
| Tokens.TokenModel.GetByToken | internal/models/tokens.go:84-106 | the lookup as intended: a fault is a DbError; not-found iff no row has SHA-256 of the plaintext, with no expiry or scope filter; a found id belongs to a row with that hash |
| Tokens.TokenModel.GetByTokenAsWritten | internal/models/tokens.go:84-106 | the lookup as written never returns a user: a fault is a DbError; not-found iff no row has SHA-256 of the plaintext; any hit is the Scan's arity error |
| Tokens.LookupsAgreeOnMisses | internal/models/tokens.go:89-101 | the two lookups agree wherever the intended one fails, and where it finds a user the lookup as written fails with the Scan error |
| Tokens.IssuedTokenFound | internal/models/tokens.go:71-106 | under the intended lookup, a stored token is found again by its plaintext, and with its user when no other user's row has the same hash |
| Tokens.IssuedTokenFailsAsWritten | internal/models/tokens.go:89-101 | as written, the lookup of a stored token fails with the Scan error, not with not-found |
| Tokens.TokenModel.DeleteAllTokenForUser | internal/models/tokens.go:108-117 | the table becomes exactly the rows not of that user and scope; zero rows deleted is success; a fault changes nothing |
| Tokens.WithoutUserScope | internal/models/tokens.go:108-117 | a row survives iff it is not of that user and scope |
| Tokens.DeleteIdempotent | internal/models/tokens.go:108-117 | deleting twice leaves what deleting once leaves |
| Tokens.DeleteKeepsOthers | internal/models/tokens.go:108-117 | a table with no row of that user and scope is left as it is |
| Tokens.DeleteDistributes | internal/models/tokens.go:108-117 | the delete distributes over concatenation and keeps a single row exactly when it is not of that user and scope, so the survivors of any table are its other rows in their original order |
| Tokens.ValidateTokenPlaintext | internal/models/tokens.go:118-121 | the validator's map after the two checks, with the conditions as written |
| Tokens.TokenPlaintextAsWritten | internal/models/tokens.go:118-121 | a fresh validator stays valid iff the token is empty; any other token gets "must be provided" |
| Tokens.GeneratedTokensRejected | internal/models/tokens.go:118-121 | every plaintext GenerateToken produces is rejected with "must be provided" |
| Permissions.Include | internal/models/permissions.go:14-16 | true iff the code is in the list, so false for an empty list |
| Permissions.CodesWithId | internal/models/permissions.go:22-53 | the codes of the catalogue rows with the permission id |
| Permissions.GrantedCodesMembership | internal/models/permissions.go:22-53 | a code is returned iff the user exists and some grant row of the user points at a catalogue row with that code |
| Permissions.GrantedCodesAppend | internal/models/permissions.go:22-53 | the codes for a concatenated grant table are the concatenation, in row order |
| Permissions.Scanned | internal/models/permissions.go:40-51 | the rows a scan reaches are a prefix of the grant table: all of it when the scan runs to the end, exactly the first k rows when it breaks off after k |
| Permissions.BrokenScanIsPrefix | internal/models/permissions.go:40-51 | a scan that breaks off never yields a code the full table does not grant: its codes are a prefix of the full codes |
| Permissions.PermissionModel.GetForAllUser | internal/models/permissions.go:22-53 | a query fault returns no codes and the error; otherwise the loop returns, with no error, exactly the joined codes of the rows the scan reached, in row order (all joined codes when it runs to the end, so an empty list for a user without grants) |
| Permissions.NewGrants | internal/models/permissions.go:55-58 | the inserted rows are for the user, one for each catalogue row whose code was asked for |
| Permissions.PermissionModel.AddForUser | internal/models/permissions.go:55-64 | the grant table grows by exactly those rows, or not at all on a fault |
| Permissions.OtherUsersGetNothing | internal/models/permissions.go:55-64 | grant rows of one user give no codes to any other user |
| Permissions.AddForUserOthersUnchanged | internal/models/permissions.go:55-64 | granting to one user leaves every other user's codes unchanged |
| Permissions.AddForUserGainsCatalogued | internal/models/permissions.go:55-58 | afterwards the user holds a code iff it was held before or was asked for and exists in the catalogue |
| Permissions.UnknownCodeNeverGranted | internal/models/permissions.go:55-58 | a code missing from the catalogue is never included |
| Users.CopyOfSentinelIsNotAnonymous | internal/models/users.go:62-64 | the sentinel is anonymous; a zero user equal to it in value is not |
| Users.SetPassword | internal/models/users.go:37-46 | on success the hash is bcrypt of the plaintext at cost 12 and the plaintext is kept; a hashing failure leaves the password unchanged |
| Users.Matches | internal/models/users.go:48-60 | ok iff no error iff the hash was made from the candidate; never (false, nil); an empty hash is "hash too short"; a wrong candidate is a mismatch |
| Users.SetThenMatches | internal/models/users.go:37-60 | a password that was set matches its plaintext and nothing else |
| Users.ValidateUsers | internal/models/users.go:190-197 | the validator's map after the six checks |
| Users.UserValidationRules | internal/models/users.go:190-197 | only the four fields can be flagged; each name iff empty or over 50 bytes; email iff the regex rejects it; password iff under 6 bytes |
| Users.UserNameMessages | internal/models/users.go:191-194 | an empty name gets the "you have to provide" message, which takes precedence; a long non-empty name gets the length message |
| Users.InsertError | internal/models/users.go:75-81 | duplicate email exactly for the pq text of users_email_key, otherwise the driver error |
| Users.UpdateError | internal/models/users.go:124-129 | duplicate email exactly when the error text mentions users_email_key, and otherwise the driver's error unchanged |
| Users.EmailViolationIsDuplicate | internal/models/users.go:77-78 | the violation of users_email_key maps to ErrDuplicateEmail in both Insert and Update |
| Users.UserModel.Insert | internal/models/users.go:66-86 | a fault or a taken email changes nothing, with the mapped error; otherwise the next serial id, created_at and is_active false are written back and the row appended; ids and emails stay unique |
| Users.UserModel.GetUser | internal/models/users.go:88-113 | an id below 1 is not found without a lookup; not found iff no row has the id; a found user is the row without its password |
| Users.UserModel.Update | internal/models/users.go:115-142 | a fault gives the mapped error; no row with the id is ErrRecordNotFound; another row's email is ErrDuplicateEmail; otherwise exactly the six columns of that row are written |
| Users.UserModel.Delete | internal/models/users.go:144-166 | no row with the id is ErrRecordNotFound; otherwise exactly that row is removed |
| Users.UserModel.GetUserByEmail | internal/models/users.go:168-188 | not found iff no row has the email; otherwise only the id and password hash of that row |
| Users.LoadedUserHasNoHash | internal/models/users.go:88-142 | a user loaded by GetUser carries an empty hash, and Matches on it fails with "hash too short" |
| Restaurants.PresenceKeys | internal/models/restaurant.go:173-177 | the presence checks flag exactly the empty fields among the five |
| Restaurants.LengthKeys | internal/models/restaurant.go:179-182 | the length checks add exactly the fields whose byte length is out of range |
| Restaurants.BadStatusMeaning | internal/models/restaurant.go:184 | the status check fires iff the status is neither "open" nor "closed" |
| Restaurants.RestaurantValidationRules | internal/models/restaurant.go:172-185 | only the five fields can be flagged; name, country and cuisine iff empty or outside 3..50 bytes; "full Address" iff empty or outside 10..200; status iff not open or closed, with no length check |
| Restaurants.RestaurantValidIff | internal/models/restaurant.go:172-185 | a restaurant passes validation iff every field is in range and the status is open or closed |
| Restaurants.RestaurantEmptyFieldMessages | internal/models/restaurant.go:173-182 | an empty field gets its "must be provided" message, which takes precedence over the length message |
| Restaurants.ValidateRestaurant | internal/models/restaurant.go:172-185 | the validator's map after the ten checks |
| Restaurants.WriteError | internal/models/restaurant.go:40-45 | ErrDuplicateRestaurantName exactly when the error text mentions restaurant_name_key, and otherwise the driver's error unchanged |
| Restaurants.NameViolationIsDuplicate | internal/models/restaurant.go:95-96 | the violation of restaurant_name_key maps to ErrDuplicateRestaurantName |
| Restaurants.RestaurantModel.Insert | internal/models/restaurant.go:29-49 | an error returns id 0 and changes nothing; otherwise the new id and both timestamps are written back and the row appended |
| Restaurants.RestaurantModel.Update | internal/models/restaurant.go:83-113 | no row with the id is ErrRestaurantNotFound; a name taken by another row is a duplicate name; otherwise the five columns and updated_at are written |
| Restaurants.RestaurantModel.Get | internal/models/restaurant.go:115-133 | ErrRestaurantNotFound iff no row has the id; otherwise that row |
| Restaurants.RestaurantModel.Delete | internal/models/restaurant.go:135-156 | ErrRestaurantNotFound iff no row has the id; otherwise exactly that row is removed |
| Middleware.Get | cmd/api/middleware.go:105 | a key reads back its value iff it is present and its deadline has not passed |
| Middleware.Incr | cmd/api/middleware.go:51 | a missing or expired key counts from 1, an integer string is incremented, and an int64 result is guaranteed |
| Middleware.CounterCountsRequests | cmd/api/middleware.go:44-63 | a counter the limiter stored is read back and incremented by the next request of the same window |
| Middleware.RateKeyInjective | cmd/api/middleware.go:44-46 | each (ip, second) has its own key, IPv6 addresses included, so a new second starts a fresh counter |
| Middleware.BearerShape | cmd/api/middleware.go:85-89 | the split accepts the header iff it is "Bearer " followed by a token without spaces |
| Middleware.Recover | cmd/api/middleware.go:17-32 | a panic becomes a 500 with "Connection: Close"; any other reply passes through |
| Middleware.Application.RateLimit | cmd/api/middleware.go:34-70 | disabled passes through; a bad remote address or a store failure is a 500 and changes nothing; otherwise only the (ip, second) counter is set to its incremented value with a 5-second TTL, the request is refused iff the count exceeds Rps, and a counter INCR refuses keeps its value with its TTL refreshed and answers 500 |
| Middleware.Application.ResolveUserId | cmd/api/middleware.go:105-132 | a live token key gives the id its text parses to; on a miss, a fault is a DbError, not-found holds iff no token row has SHA-256 of the token, and a found id is the user of such a row; with the lookup as written, a miss in the cache is never resolved |
| Middleware.Application.CachedIdResolves | cmd/api/middleware.go:105-107 | a token key holding the decimal text of an id resolves to exactly that id |
| Middleware.Application.Authenticate | cmd/api/middleware.go:72-152 | Vary is always added; with the lookup as written, a known caller is passed only from a live token: cache key; an empty header is anonymous; a malformed header is an invalid token; with the cached user under both keys no store is read; otherwise: a token miss goes to GetByToken (not found is an invalid token, other errors 500), any GetUser error is a 500, and a loaded user is written only under user:<id> with a 24-hour TTL |
| Middleware.Application.RequireAuthenticatedUser | cmd/api/middleware.go:154-166 | anonymous is refused as unauthenticated, a known user passes, and a missing identity panics |
| Middleware.Application.RequireActivatedUser | cmd/api/middleware.go:168-181 | behind the authentication gate, an inactive user is refused and an active one passes |
| Middleware.Application.RequirePermissions | cmd/api/middleware.go:183-209 | behind the activation gate (anonymous refused as unauthenticated, inactive refused as not activated), a failure to load the permissions is a 500, and otherwise the request passes exactly when the codes the scan returned include the required one; a pass implies the user's full codes include it |
| Middleware.Application.Gate | cmd/api/middleware.go:154-209 | a passing gate leaves the identity as it was, and each gate's pass implies the properties of the gates it wraps |
| Middleware.Application.Serve | cmd/api/middleware.go:17-209 | no panic escapes; a handler behind a gate only runs for a known caller, who is active on activated and permission routes and holds the route's code on permission routes; a known caller sent exactly "Bearer "; 429 only with the limiter enabled; Vary is on every reply but a 429 or a 500; Connection: Close only on a handler panic |
| UserHandlers.RoleFor | cmd/api/users.go:28-37 | the role is "seller" iff the path is /v1/seller and "customer" otherwise; the body's role is never read |
| UserHandlers.SignupPermissions | cmd/api/users.go:82-97 | with both codes catalogued, a new user can read restaurants and can write them iff they signed up as a seller |
| UserHandlers.CreateUser | cmd/api/users.go:13-104 | a validation failure is a 422 before hashing or inserting; a hashing failure is a 500; a duplicate email is a 422; otherwise the hashed user is inserted with the path's role, inactive |
| UserHandlers.Register | cmd/api/users.go:52-97 | a failed or duplicate insert changes nothing; after a successful insert the user row stays whatever fails later, and 201 is answered iff every later step succeeds |
| UserHandlers.ValidateSignup | cmd/api/users.go:39-44 | the errors are those of ValidateUsers on a fresh validator, and valid iff there are none |
| UserHandlers.Onboard | cmd/api/users.go:64-97 | a 72-hour activation token is stored, then the role's grants, each step only after the previous one succeeded |
| UserHandlers.GrantSignupPermissions | cmd/api/users.go:82-97 | a seller is granted "restaurant:write" and then "restaurant:read", a customer only "restaurant:read"; the first failure stops |
| UserHandlers.MergePatchFields | cmd/api/users.go:137-145 | first name, last name and email are replaced exactly when the input is non-empty and nothing else changes; an empty patch is the identity; merging twice is merging once |
| UserHandlers.UpdateUser | cmd/api/users.go:106-168 | not found is a 404 and other load errors a 500; otherwise the merged fields are written and the hash is wiped; every write failure is a 500 and never an edit conflict |
| UserHandlers.ActivateUser | cmd/api/users.go:223-285 | an unknown token is a 422 on "token" and another lookup error a 500; with the lookup as written nothing else happens, so nobody is activated and nothing is written; with a user found, the row is set active (its hash wiped) and that user's activation tokens deleted; the early-response paths of the write-back are as written |
| UserHandlers.AuthenticateUser | cmd/api/users.go:287-327 | an unknown email is invalid credentials; a password that does not match is a 500; otherwise a 24-hour authentication token for that user is stored and returned, and only when the stored hash was made from the password |
| UserHandlers.ResetUserPassword | cmd/api/users.go:329-378 | a caller whose id differs from the path id is refused before the body is read (the anonymous caller has id 0); past the gate every request ends in "no user found" or a 500 |

## Left out

- HTTP and JSON plumbing is left out: `readJSON`/`writeJSON`, the response writers of `cmd/api/errors.go`, routing and the health check. Responses are outcome datatypes, and a body that fails to decode is a `None` input.
- The JSON round trip of a cached user is left out. A cached user is stored and read back as the same value, which is sound because the password is excluded from JSON and loaded users carry none. JSON that would not decode is a plain string under the user key.
- Redis transactions, connection failures other than the counter store, real expiry and concurrency between requests are left out. Each request is one sequential run over the stores.
- The mailer goroutine of signup is left out: it sends mail, and it races on the handler's `err` as described under "Behaviour as written".
- UserHandlers.Register: "201 iff every later step succeeds" holds for the handler without the mailer goroutine. The race on `err` at `cmd/api/users.go:76` can change the answer either way, and the model does not capture it.
- Process start-up and shutdown in `cmd/api/main.go` and `cmd/api/server.go` are left out. They are I/O and concurrency.
- bcrypt, SHA-256, crypto/rand and the email regex are symbolic. bcrypt's 72-byte input limit and its cost bounds are not modelled.
- SQL text, the listing queries with full-text search, and the scanning loops of `GetAll`, `GetRestaurantMenus` and `GetAllMenuForCategory` are left out. The pure ORDER BY whitelist is kept.
- `PriceCent` is floating point and is left out.
- The category and menu models and their handlers, `deleteUserHandler`, `userInformationHandler` and `CheckIfRestaurantExists` are thin glue over the same tables and are left out.
- `ValidatePassword` and `ChangePassword` are called by the password reset but are not part of this model, since their code is not available. The reset is modelled up to the old-password check, which is as far as any request gets.
- `readIDParam` is not part of this model. The path id is an input, and `None` stands for its failure.
- A serial id consumed by a failed insert is not modelled: a failed insert leaves `nextId` unchanged. Schema cascades between tables are not modelled either.
- Middleware.Application.RateLimit: Redis's acceptance of non-canonical integer strings is narrowed to the canonical decimal form that the limiter itself writes.
- Middleware.Application.Authenticate: a JSON user value read back under a token key, which nothing in the code writes, is read as the id string "".
- Tokens.TokenModel.GetByToken: models the lookup the code evidently intends, the user_id of the first row with the hash. `Tokens.TokenModel.GetByTokenAsWritten` is the code's `SELECT *` scanned into one integer. The tokens schema is not part of this model, so the Scan error's text assumes the four columns `Insert` writes.
- Tokens.IssuedTokenFound: holds for the intended lookup only. As written, the same stored token's lookup fails (`Tokens.IssuedTokenFailsAsWritten`).
- UserHandlers.ResetUserPassword: the steps after a matching old password are not modelled, because no loaded user can match.

## Findings

| source | as written | input that shows it | evidently intended | confidence | as-written member | corrected member |
|---|---|---|---|---|---|---|
| internal/models/tokens.go:89-93 | `SELECT * FROM tokens WHERE hash = $1` is scanned into the single destination `&id`, which database/sql refuses for a row of several columns; the error is not `sql.ErrNoRows`, so every hit returns `(0, err)` | any token that `New` stored, looked up by its plaintext; activation then answers 500 and authentication answers 500 on every database hit | `SELECT user_id FROM tokens WHERE hash = $1`, returning the row's user | not executed | Tokens.IssuedTokenFailsAsWritten | Tokens.IssuedTokenFound |
