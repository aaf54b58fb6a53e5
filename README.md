# Product catalog service: a Dafny model

This project models the core of a small Go web service (module
`lukekorsman.com/store`): a product catalog with an in-memory product
store, product validation, cache-aside HTTP handlers in front of an
optional key/value cache, an in-memory user registry with registration and
login, and two authentication middlewares.

Each stateful component is given twice:

- as pure functions over a value snapshot of its state (`CreateOp`,
  `Insert`, `UpdateFlow`, ...). The properties are lemmas about these
  functions.
- as a class (`MemoryStore`, `MemoryUserStore`, `Cache`, `Handler`,
  `ResponseWriter`). Its methods change its fields step by step, with the
  source's loops, and each method's `ensures` ties the new state and result
  to the function above. `MemoryStore`, `MemoryUserStore` and `Handler` have
  the source's fields. Two fields are abstract stand-ins: `Cache.entries`
  stands for the Redis server behind RedisCache's client, and
  `ResponseWriter.forwarded` records what is passed to the wrapped
  `http.ResponseWriter`.

| file | module | models |
|---|---|---|
| `optional.dfy` | `Optional` | an option type |
| `http_status.dfy` | `HttpStatus` | the HTTP status codes the handlers answer with |
| `go_text.dfy` | `GoText` | the Go library calls the core relies on: `strings.TrimSpace`, `len` of a string (UTF-8 bytes), `fmt.Sprintf("%d")`, `strconv.Atoi`, `strings.Split` on one character |
| `product_store.dfy` | `ProductStore` | `MemoryStore` (internal/product/store.go) |
| `product_validation.dfy` | `ProductValidation` | `ValidateProduct` and `ValidationError` (internal/product/validation.go) |
| `kv_cache.dfy` | `KeyValueCache` | the cache's `Get`, `Set` and `Delete` as a map from key to value and TTL |
| `request_context.dfy` | `RequestContext` | the user values a request context carries (internal/auth/user.go, internal/http/context.go) |
| `product_handler.dfy` | `ProductHandler` | the five product handlers (internal/product/handler.go) |
| `product_handler_properties.dfy` | `ProductHandlerProperties` | what the cache-aside protocol guarantees |
| `auth_store.dfy` | `AuthStore` | `MemoryUserStore` (internal/auth/store.go) |
| `auth_handler.dfy` | `AuthHandler` | `Register` and `Login` (internal/auth/handler.go) |
| `middleware.dfy` | `Middleware` | `SimpleAuth`, `JWTAuth` and `responseWriter` (internal/http/middleware.go) |
| `catalog_scenarios.dfy` | `CatalogScenarios` | concrete request sequences, and the middlewares composed with Create |

Modelling choices:

- The request context is an explicit `Context` value. It holds whether the
  context is already done, the `auth.User` stored under the auth package's
  key, and the `http.User` stored under the HTTP package's key. The Go code
  uses two distinct keys, so the model keeps the two users apart.
- Cache failures are inputs. A `Faults` value says which of the request's
  cache `Get`, `Set` and `Delete` calls fail. A cached value of the wrong
  shape, which `json.Unmarshal` would reject, is a miss.
- A missing cache is `None`. Get, Update and Delete call the cache without
  checking for nil. The model gives that path an explicit `NilCachePanic`
  response. For Update and Delete, the store has already been changed when
  it happens.
- bcrypt hashing and comparison, JWT signing and JWT verification are
  functions passed in by the caller (`hash`, `matches`, `generate`,
  `verify`).

Where the code behaves differently from what its own tests or a first
reading suggest, the model follows the code:

- The name limit counts UTF-8 bytes (`len`), not characters.
- The cache is optional only for List and Create.
- After a write, the cache is coherent only when the invalidating `Delete`
  succeeded. A failed `Delete` is printed and ignored, so stale entries
  can remain.
- The product handler test passes `NewHandler` one argument and expects
  Create behind `SimpleAuth` to answer 201. In the code, `SimpleAuth` stores
  an `http.User` but Create reads `auth.UserFromContext`. The model
  therefore answers 401 (`CatalogScenarios.SimpleAuthThenCreateIsUnauthorized`).

## Model

| member | source | states |
|---|---|---|
| ProductStore.MemoryStore.constructor | internal/product/store.go:21-25 | a new store is empty with next id 1 |
| ProductStore.MemoryStore.List | internal/product/store.go:27-35 | returns the stored products in order, or the context error when the context is done |
| ProductStore.MemoryStore.Create | internal/product/store.go:37-48 | the result and new state are `CreateOp`'s: the product gets id `nextID`, is appended, and `nextID` advances |
| ProductStore.MemoryStore.GetByID | internal/product/store.go:50-63 | the loop returns the first product with the id, else `NotFound(id)` |
| ProductStore.MemoryStore.Update | internal/product/store.go:65-80 | the loop replaces the first product with the id in place, forcing its id; otherwise NotFound and no change |
| ProductStore.MemoryStore.Delete | internal/product/store.go:82-96 | the loop splices out the first product with the id; otherwise NotFound and no change |
| ProductStore.NewStore | internal/product/store.go:21-25 | a new store is well formed, lists nothing, and its first product gets id 1 |
| ProductStore.CancelledChangesNothing | internal/product/store.go:28-32 | with a cancelled context all five operations return the context error and leave the state unchanged |
| ProductStore.NextIDNeverDecreases | internal/product/store.go:45 | only Create moves `nextID`, and only upwards |
| ProductStore.CreatePreservesWellFormed | internal/product/store.go:44-47 | Create accepts any product, appends it with id `nextID` (list order is creation order), and keeps ids positive, below `nextID` and strictly increasing |
| ProductStore.CreateThenGet | internal/product/store.go:44-62 | round trip: the created product is found under its new id, and lookups of existing ids are unchanged |
| ProductStore.FindAppend | internal/product/store.go:57-61 | a lookup in a list extended at the end finds the old match first |
| ProductStore.UpdatePreservesWellFormed | internal/product/store.go:72-79 | Update keeps the store well formed |
| ProductStore.UpdateThenGet | internal/product/store.go:72-79 | Update of a present id returns the product with that id and Get sees it; an absent id is NotFound with no change; other ids read the same; the length is kept |
| ProductStore.FindReplace | internal/product/store.go:75 | replacing a slot with a product of the same id moves no lookup |
| ProductStore.DeletePreservesWellFormed | internal/product/store.go:89-92 | Delete keeps the store well formed |
| ProductStore.DeleteThenGet | internal/product/store.go:89-95 | Delete of a present id removes exactly that element, keeps the others in order, and Get then says NotFound; an absent id is NotFound with no change; other ids read the same |
| ProductStore.FindRemove | internal/product/store.go:91 | removing another id's element keeps whether and what a lookup finds |
| ProductStore.DeleteTwiceFails | internal/product/store.go:89-95 | deleting the same id a second time fails with NotFound |
| ProductStore.DeletedIdNeverReassigned | internal/product/store.go:45-91 | the Create that follows a Delete gives an id different from the deleted one and from every id still stored |
| ProductValidation.ErrorText | internal/product/validation.go:12-14 | the text is the field, ": " and the message |
| ProductValidation.ValidateProduct | internal/product/validation.go:16-48 | at most 3 errors, and none exactly when the name is not blank, has at most 100 bytes and the price is in (0, 999999.99] |
| ProductValidation.ErrorsDistinct | internal/product/validation.go:19-45 | the four error values are pairwise different |
| ProductValidation.CollectMembers | internal/product/validation.go:19-47 | each error is present exactly when its check fires |
| ProductValidation.NamesThenPrices | internal/product/validation.go:19-47 | name errors followed by price errors never put a name error after a price error |
| ProductValidation.CollectOrder | internal/product/validation.go:19-47 | name errors come before price errors, because the name checks run first |
| ProductValidation.ErrorsMatchChecks | internal/product/validation.go:19-47 | each of the four errors is present exactly when its condition holds on the product, and name errors come first |
| ProductValidation.ErrorCount | internal/product/validation.go:19-47 | the number of errors is one per failed name check plus at most one price error |
| ProductValidation.NameLengthBoundary | internal/product/validation.go:26 | a 100-byte name is accepted and a 101-byte name gives exactly the too-long error |
| ProductValidation.ValidateIsCollect | internal/product/validation.go:16-48 | the errors are those of the four check outcomes, in check order |
| ProductValidation.EmptyNameCase | internal/product/validation.go:19-24 | an empty name with a valid price gives exactly the name-required error |
| ProductValidation.PriceOnlyError | internal/product/validation.go:33-38 | a good name with a price of at most 0 gives exactly the price error |
| ProductValidation.EmptyNameNegativePrice | internal/product/validation.go:19-38 | an empty name with price -5 gives the name error, then the price error |
| ProductValidation.TableCases | internal/product/validation_test.go:13-32 | the validation test table: valid, empty name, zero price, empty name with negative price |
| KeyValueCache.Cache.Get | internal/cache/redis.go:42-52 | returns the stored value unless the key is absent or the call fails |
| KeyValueCache.Cache.Set | internal/cache/redis.go:33-40 | stores the value with its TTL under the key, leaving other keys alone, unless the call fails |
| KeyValueCache.Cache.Delete | internal/cache/redis.go:54-56 | removes exactly the listed keys (absent keys are no error) unless the call fails |
| ProductHandler.Handler.constructor | internal/product/handler.go:21-26 | the handler holds the given store and cache |
| ProductHandler.Handler.List | internal/product/handler.go:28-60 | response, store and cache afterwards are `ListFlow`'s |
| ProductHandler.Handler.Get | internal/product/handler.go:98-130 | response, store and cache afterwards are `GetFlow`'s |
| ProductHandler.Handler.Create | internal/product/handler.go:62-96 | response, store and cache afterwards are `CreateFlow`'s |
| ProductHandler.Handler.Update | internal/product/handler.go:132-169 | response, store and cache afterwards are `UpdateFlow`'s |
| ProductHandler.Handler.Delete | internal/product/handler.go:171-193 | response, store and cache afterwards are `DeleteFlow`'s |
| ProductHandlerProperties.ItemKeyInjective | internal/product/handler.go:107 | `product:<id>` keys of different ids differ, and none equals `products:list` |
| ProductHandlerProperties.ListHitSkipsStore | internal/product/handler.go:34-41 | a list hit answers 200 HIT with the cached list, whatever the store holds, and changes nothing |
| ProductHandlerProperties.ListMiss | internal/product/handler.go:44-59 | on a miss: store error gives 500 and no cache write; otherwise MISS and the list cached for 5 minutes, or DISABLED without a cache |
| ProductHandlerProperties.InvalidIdTouchesNothing | internal/product/handler.go:100-177 | a non-numeric id gives 400 "invalid ID" with store and cache untouched, even without a cache |
| ProductHandlerProperties.GetOutcome | internal/product/handler.go:107-129 | hit gives HIT without the store; store error gives 404 with nothing cached; otherwise MISS and the product cached for 10 minutes |
| ProductHandlerProperties.CreateGuards | internal/product/handler.go:63-80 | no user gives 401, invalid input gives 400 with exactly the validation errors, neither touching store or cache |
| ProductHandlerProperties.UpdateGuards | internal/product/handler.go:146-151 | invalid input gives 400 with exactly the validation errors, touching nothing |
| ProductHandlerProperties.CreateSucceeds | internal/product/handler.go:63-95 | a signed-in, live request with a valid product answers 201 with the product under `nextID`, appends it, and deletes the list key |
| ProductHandlerProperties.FailedCreateKeepsCache | internal/product/handler.go:63-87 | a Create that does not answer 201 leaves the cache and the store unchanged |
| ProductHandlerProperties.FailedUpdateKeepsCache | internal/product/handler.go:133-157 | an Update that does not answer 200 leaves the cache and the store unchanged, the store's 404 included |
| ProductHandlerProperties.FailedDeleteKeepsCache | internal/product/handler.go:172-182 | a Delete that does not answer 204 leaves store and cache unchanged |
| ProductHandlerProperties.CreateInvalidatesList | internal/product/handler.go:83-95 | a 201 means the input was valid, the store ran Create, and exactly `products:list` was deleted from the cache |
| ProductHandlerProperties.EvictItem | internal/product/handler.go:159-166 | deleting the list key and one product's key removes both when the call succeeds and keeps every other product's entry |
| ProductHandlerProperties.UpdateInvalidates | internal/product/handler.go:153-168 | a 200 means the store ran Update and exactly the list key and this product's key were deleted; other products' entries are kept |
| ProductHandlerProperties.DeleteInvalidates | internal/product/handler.go:179-192 | a 204 means the store ran Delete and exactly the list key and this product's key were deleted; other products' entries are kept |
| ProductHandlerProperties.UpdateThenGetIsFresh | internal/product/handler.go:110-166 | after a successful Update whose invalidation succeeded, Get of that id misses and returns the updated product |
| ProductHandlerProperties.DeleteThenGetIsFresh | internal/product/handler.go:110-190 | after a successful Delete whose invalidation succeeded, Get of that id answers 404 |
| ProductHandlerProperties.CreateThenListIsFresh | internal/product/handler.go:34-93 | after a successful Create whose invalidation succeeded, List misses and returns the old products plus the new one |
| ProductHandlerProperties.WriteThenListIsFresh | internal/product/handler.go:34-190 | after a successful Update or Delete whose invalidation succeeded, List misses and returns the current store |
| ProductHandlerProperties.ReadsIgnoreCache | internal/product/handler.go:28-130 | List and Get leave the store unchanged, with or without a cache |
| ProductHandlerProperties.CreateIgnoresCache | internal/product/handler.go:62-96 | Create changes the store the same way with or without a cache |
| ProductHandlerProperties.UpdateIgnoresCache | internal/product/handler.go:132-169 | Update changes the store the same way with or without a cache, since the store call comes before the cache call |
| ProductHandlerProperties.DeleteIgnoresCache | internal/product/handler.go:171-193 | Delete changes the store the same way with or without a cache, since the store call comes before the cache call |
| ProductHandlerProperties.ReadCacheFailuresInvisible | internal/product/handler.go:51-126 | a failing cache Set never changes what List or Get answer |
| ProductHandlerProperties.CreateCacheFailuresInvisible | internal/product/handler.go:89-93 | a failing cache Delete never changes Create's response or store effect |
| ProductHandlerProperties.UpdateCacheFailuresInvisible | internal/product/handler.go:164-166 | a failing cache Delete never changes Update's response or store effect |
| ProductHandlerProperties.DeleteCacheFailuresInvisible | internal/product/handler.go:188-190 | a failing cache Delete never changes Delete's response or store effect |
| ProductHandlerProperties.NilCacheAsymmetry | internal/product/handler.go:34-188 | without a cache List and Create answer normally, Get of any valid id fails on the nil cache, and Update and Delete fail exactly when their store call succeeded |
| AuthStore.MemoryUserStore.constructor | internal/auth/store.go:24-30 | empty maps and next id 1 |
| AuthStore.MemoryUserStore.Create | internal/auth/store.go:32-56 | result and new state are `Insert`'s |
| AuthStore.MemoryUserStore.GetByEmail | internal/auth/store.go:58-68 | `users[emails[e]]` (the zero user for a dangling id), or "user not found" |
| AuthStore.MemoryUserStore.GetByID | internal/auth/store.go:70-80 | `users[id]`, or "user not found" |
| AuthStore.EmptyRegistryConsistent | internal/auth/store.go:24-30 | a new registry satisfies the invariant |
| AuthStore.EmailIndexIff | internal/auth/store.go:51-52 | under the invariant, `emails[e] == id` exactly when `users[id]` has email `e`, so emails are unique |
| AuthStore.InsertPreservesConsistent | internal/auth/store.go:36-53 | Create keeps the two maps in agreement and ids below `nextID` |
| AuthStore.InsertOutcome | internal/auth/store.go:36-55 | duplicate email and hash failure change nothing; otherwise the user gets `nextID` and the hash (not the password), is found by email and id, and `nextID` advances |
| AuthStore.InsertFrame | internal/auth/store.go:51-53 | Create leaves the lookups of other emails and existing ids unchanged |
| AuthHandler.CheckRegisterInput | internal/auth/handler.go:42-50 | input accepted exactly when both fields are non-empty and the password has at least 6 bytes; the empty check comes first |
| AuthHandler.Handler.constructor | internal/auth/handler.go:13-18 | the handler holds the given user store |
| AuthHandler.Handler.Register | internal/auth/handler.go:35-68 | reply and registry afterwards are `RegisterFlow`'s |
| AuthHandler.Handler.Login | internal/auth/handler.go:70-104 | the reply is `LoginFlow`'s and the registry is not changed |
| AuthHandler.RegisterRejectsBadInput | internal/auth/handler.go:42-50 | empty fields or a short password give 400 without calling the store; an empty field gives "email and password required" (even with a short password), otherwise "password must be at least 6 characters" |
| AuthHandler.RegisterDuplicateEmail | internal/auth/handler.go:52-56 | a registered email gives 400 "email already registered" and no change |
| AuthHandler.RegisterSuccess | internal/auth/handler.go:52-67 | success answers 201 with the token and the new user, whose password is the hash; a token failure is 500 with the user kept |
| AuthHandler.LoginFailuresLookAlike | internal/auth/handler.go:77-92 | unknown email and wrong password give the same 401 "invalid credentials" |
| AuthHandler.LoginSuccessIff | internal/auth/handler.go:77-103 | Login answers 200 exactly for a registered email whose password matches and a token is issued, returning that user |
| AuthHandler.RegisterThenLogin | internal/auth/handler.go:35-104 | once registered, logging in with the same password succeeds and returns the same user |
| Middleware.SimpleAuth | internal/http/middleware.go:28-44 | forwards exactly when the key is "secret", then with user Alice (id 1) under the HTTP key; otherwise 401 "unauthorized" |
| Middleware.SimpleAuthCases | internal/http/middleware_test.go:16-33 | no key and a wrong key are refused, "secret" is let through |
| Middleware.BearerIff | internal/http/middleware.go:84-90 | the header yields token `t` exactly when it is "Bearer " then `t` with no space in `t` |
| Middleware.ParseAuthorizationCases | internal/http/middleware.go:78-90 | an empty header is missing; a Bearer header is one whose first 7 characters are "Bearer " and whose rest has no space; the token is that rest |
| Middleware.TwoTokensRefused | internal/http/middleware.go:84-88 | "Bearer a b" is refused |
| Middleware.LowerCaseSchemeRefused | internal/http/middleware.go:84-88 | "bearer x" is refused |
| Middleware.DoubleSpaceRefused | internal/http/middleware.go:84-88 | "Bearer  x" is refused |
| Middleware.JWTAuth | internal/http/middleware.go:75-108 | each refusal is a 401 with its own message, by cause in the source's order: missing header, malformed header, invalid token, unknown user; otherwise the user is attached under the auth key |
| Middleware.JWTAuthForwardIff | internal/http/middleware.go:75-108 | forwards exactly for a well-formed Bearer header whose token verifies to a registered user id, with that user attached under the auth key; all refusals are 401 |
| Middleware.ResponseWriter.constructor | internal/http/middleware.go:51 | a fresh wrapper reports 200 |
| Middleware.ResponseWriter.WriteHeader | internal/http/middleware.go:70-73 | records the status, passes it on, and keeps the reported status equal to the last one written |
| GoText.TrimSpaceEmptyIff | internal/product/validation.go:19 | a string trims to "" exactly when it is all white space |
| GoText.Utf8Len | internal/product/validation.go:26 | the byte length lies between the number of characters and four times it, and equals it exactly for ASCII |
| GoText.AtoiFormatInt | internal/product/handler.go:101-107 | parsing the decimal form of any 64-bit id gives that id back |
| GoText.FormatIntInjective | internal/product/handler.go:107 | different ids have different decimal forms |
| GoText.Split | internal/http/middleware.go:84 | the parts joined by the separator give the input back and contain no separator |
| GoText.SplitAtFirst | internal/http/middleware.go:84 | splitting a string whose first separator follows `a` gives `a` and then the split of the rest |
| CatalogScenarios.PathOne | internal/product/handler.go:102 | the path segment "1" parses to id 1 |
| CatalogScenarios.Path999 | internal/product/store.go:62 | "999" parses to 999, and the not-found message is "product 999 not found" |
| CatalogScenarios.ShortNameAcceptable | internal/product/validation.go:19-38 | a capitalised name of 1 to 25 characters with a price in range passes validation |
| CatalogScenarios.BooksAreValid | internal/product/validation.go:19-38 | "Book" at 10 and "Book2" at 15 pass validation |
| CatalogScenarios.EmptyListIsCached | internal/product/handler.go:44-59 | listing an empty store answers [] with MISS and caches [] for 5 minutes |
| CatalogScenarios.CreateFirstThenList | internal/product/handler.go:44-95 | the first product created gets id 1, the list key is dropped, and the next List misses and answers that product |
| CatalogScenarios.EmptyNameRefused | internal/product/handler.go:75-80 | an empty name gives 400 with the single name error; store and cache unchanged |
| CatalogScenarios.EmptyNameAndZeroPrice | internal/product/validation.go:19-47 | an empty name with price 0 gives exactly two errors, one per field |
| CatalogScenarios.CreateBookThenList | internal/product/handler.go:44-95 | creating "Book" answers it with id 1, and the next List answers just that product |
| CatalogScenarios.GetMissingIsNotFound | internal/product/handler.go:118-122 | Get 999 on an empty store answers 404 "product 999 not found" and caches nothing |
| CatalogScenarios.CreateUpdateGetAny | internal/product/handler.go:83-168 | create, update, get: the get returns the updated product whatever was cached |
| CatalogScenarios.CreateBookUpdateGet | internal/product/handler.go:83-168 | create "Book", update id 1 to "Book2" at 15, get id 1: the get answers the updated product |
| CatalogScenarios.DeleteOnlyProduct | internal/product/handler.go:44-192 | deleting the only product empties the store; Get of its id then answers 404 and List answers [] |
| CatalogScenarios.CreateDeleteGetAny | internal/product/handler.go:83-192 | create, delete, get: 404, and List answers [] |
| CatalogScenarios.SimpleAuthThenCreateIsUnauthorized | internal/http/middleware.go:35-42 | a request SimpleAuth lets through reaches Create with no auth user and gets 401 |
| CatalogScenarios.JWTAuthThenCreate | internal/http/middleware.go:104-105 | a request JWTAuth lets through passes Create's user check and a valid product is created |

## Left out

- internal/product/mysql_store.go is not part of this model. Its SQL runs on an external database. The model keeps the product store's operation contract but has only the in-memory implementation.
- internal/cache/redis.go is modelled only as a map from key to value and TTL. Expiry timing, JSON serialisation and the network are not modelled. A Redis error is an input flag.
- bcrypt hashing and comparison (internal/auth/store.go:40, 82-84) and JWT signing and verification (internal/auth/jwt.go) are functions supplied by the caller.
- Concurrency is not modelled: the `sync.RWMutex` of the user store, the missing lock of `MemoryStore`, and concurrent requests. Each operation is one atomic step.
- RequestTimer, RequestLogger and MetricsMiddleware are not modelled; they only time, log and count. Their status capture is `ResponseWriter`.
- Printing, logging, metrics, configuration, migrations and the program's wiring (cmd/api/main.go) are not modelled.
- JSON decoding of request bodies becomes "decoded or not" (`None` is invalid JSON). JSON encoding of responses, the Content-Type header, and Go's encoding of a nil slice as `null` are not modelled.
- `Product`'s fields (`ID int`, `Name string`, `Price float64`) are taken from their uses in store.go, validation.go and handler.go.
- ProductValidation.ValidateProduct: the price is an exact real, not a float64, so rounding at the 999999.99 boundary is not modelled.
- GoText.Atoi: Go's `int` is taken to be 64 bits wide.
- ProductStore.MemoryStore.Create: `nextID` is an unbounded integer. Go's 64-bit counter would wrap after 2^63 - 1 products, so `NextIDNeverDecreases`, `DeletedIdNeverReassigned` and the id bounds of `WellFormed` hold only up to that point.
- AuthStore.MemoryUserStore.Create: `nextID` is an unbounded integer. Go's 64-bit counter would wrap, so the `Consistent` bound on ids holds only until then.
- GoText: a string is a sequence of Unicode scalar values, not Go's byte string. Byte lengths (`Utf8Len`) are computed from the UTF-8 encoding. Strings that are not valid UTF-8, and `strings.Split` over raw bytes, are not modelled.
- ProductStore.MemoryStore.List returns the store's own slice, which the caller could alias and mutate. The model returns a value.
- The type assertion in Login (internal/auth/handler.go:84-88) always succeeds here, because the handler's store is the in-memory one. Its 500 path is not modelled.
- Middleware: calling `next` is modelled as a `Forward` result carrying the new context, which the caller then runs once. The middleware's own writes to the response are its `Deny` result.
