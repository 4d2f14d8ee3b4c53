# Task-tracking API store, modelled in Dafny

The system is a small Express server (`index.js`) for personal to-do lists.
Users register and log in. A bearer token then lets them list, create,
complete and delete their own tasks. All state lives in two in-memory
arrays: `users` holds `{id, username, passwordHash}` and `tasks` holds
`{id, userId, desc, deadline, statut, priority, notificationEnvoyee}`.

The model is split into modules that follow the parts of that file:

- `Wrappers` (wrappers.dfy): `Option`, `Result` and `Outcome`, the shapes of a handler's answer.
- `Api` (api.dfy): the error responses as one datatype (`ApiError`), the token claims (`Identity`), and JavaScript truthiness of a body field (`Truthy`: absent or `""` is falsy). `Truthy` is a definition with no contract of its own; the missing-field promises are stated through it in the ensures of `Server.Store.Register`, `Users.Login` and `Server.Store.CreateTask`, and the priority default in `Tasks.NewTask`.
- `Auth` (auth.dfy): the `auth` middleware. `BearerToken` takes the header apart. `Authenticate` is the whole gate. The token library's `jwt.verify` is a parameter `verify: string -> Option<Identity>`, a partial map from tokens to claims.
- `Users` (users.dfy): user records, the username lookup (`FindUser`) and the registry invariant (`Registry`). Login is a pure function of `users`. The password library's `bcrypt.compare` is a parameter `compare`.
- `Tasks` (tasks.dfy): task records and the owner-scoped lookup (`FindOwned`, the shared predicate of `find`/`findIndex`). It also holds the list filter (`OwnedBy`) and pure descriptions of the created record (`NewTask`), the done route (`Completed`) and the delete route (`Removed`). The lemmas about them live here too.
- `Server` (server.dfy): class `Store` with the fields `users` and `tasks` and the four handlers that change them. These are `Register`, `CreateTask`, `MarkDone` and `DeleteTask`; each updates the sequences in place under `modifies this`. `AccountSession` and `TaskSession` are client sessions written against the contracts alone. The first registers, fails to register twice, logs in and authenticates. The second creates, lists, completes and deletes a task, and shows that another user's delete finds nothing.

Ids follow the code exactly: a new user or task gets the current array
length plus one. Users are never removed, so user ids stay `1..n`
(`Registry`). Tasks are removed, so task ids are not unique
(`IdReusedAfterDelete`), and the done and delete routes act on the first
matching task of the caller. A delete therefore does not guarantee that a
later lookup of the same id fails; `RemovedDropsOne` gives the exact
condition. The code never checks that a task's owner is a registered
user, because the owner comes from the token's claims.

## Model

| member | source | states |
|---|---|---|
| `Auth.BearerToken` | index.js:21-22 | The header yields token `t` exactly when it is `"Bearer "` followed by `t`. Otherwise there is no token. |
| `Auth.BearerRoundTrip` | index.js:22 | A header built as `"Bearer " + t` gives back `t`. |
| `Auth.Authenticate` | index.js:20-31 | `MissingToken` exactly when the header is absent or is not `"Bearer "` followed by a non-empty token. `InvalidToken` exactly when such a token exists but the verifier rejects it. No other failure occurs. On success the identity is the verifier's claims for that token. |
| `Auth.MissingTokenIgnoresVerifier` | index.js:22-25 | A missing or empty token is refused whatever the verifier says, so it is refused before verification. |
| `Auth.IssuedTokenAuthenticates` | index.js:25-26 | A non-empty token that verifies to some claims authenticates the request as exactly those claims. |
| `Users.FindUser` | index.js:39 | Returns the index of the first record with the username, or none exactly when no record has it. |
| `Users.Registry` | index.js:43-44 | The invariant that registration keeps: record `i` has id `i + 1`, usernames are non-empty and distinct. It implies that looking up any account's name finds that very account. Kept by `Users.RegistryAppend` and `Server.Store.Register`. |
| `Users.FindUserAppend` | index.js:39-44 | After a record is appended, earlier lookups are unchanged. The new name is found at the end when it was not taken before. |
| `Users.RegistryAppend` | index.js:39-44 | Appending a free, non-empty name with id length+1 keeps the registry invariant: ids `1..n` and distinct usernames. |
| `Users.Login` | index.js:49-61 | `MissingFields` exactly when username or password is falsy. Every other failure is `InvalidCredentials`, and an unknown username always fails. A success carries the id and username of a stored account with that name whose hash matches the password. |
| `Users.LoginDecidedByAccount` | index.js:54-60 | In a registry, login with an account's name succeeds exactly when the password matches that account's hash. The claims are then that account's id and username. |
| `Users.RegisterThenLogin` | index.js:42-60 | After registering a free name, login with that name succeeds with the new account's claims (id = old length + 1) when the hash accepts the password, and fails with `InvalidCredentials` otherwise. |
| `Tasks.Matches` | index.js:92 | The lookup predicate of the done and delete routes (index.js:92 and 102). A NaN id matches no task, and a task matches only for its own owner. |
| `Tasks.FindOwned` | index.js:102 | Returns the first index whose task has the id and belongs to the caller, or none exactly when no task matches both. A NaN id matches nothing. |
| `Tasks.OwnedBy` | index.js:66 | The listed tasks are exactly the caller's tasks, each as often as in the table, and no task of anyone else. |
| `Tasks.OwnedByAppend` | index.js:66 | The listing keeps table order: listing `a + b` gives the listing of `a` followed by that of `b`. |
| `Tasks.OwnedByAppendOne` | index.js:85 | Appending a task puts it at the end of its owner's listing and leaves every other user's listing unchanged. |
| `Tasks.NewTask` | index.js:76-84 | The record the create route builds. Its contract states a positive id, a non-empty priority and the effect on the listings: appended, it ends the caller's listing and no one else's. The field values are stated by `Server.Store.CreateTask`. |
| `Tasks.Completed` | index.js:94-95 | The table after a mark-done: same length; with no match it is unchanged; otherwise only the first owned match differs, in `statut` ("Terminé") and `notificationEnvoyee` (false). Further properties: `Tasks.CompletedIdempotent`, `Tasks.CompletedIsolation`. |
| `Tasks.Removed` | index.js:104 | The table after a delete: with no match it is unchanged; otherwise it is one shorter, has lost exactly one copy of the first owned match, and the tasks before and after it keep their order. Further properties: `Tasks.RemovedDropsOne`, `Tasks.RemovedIsolation`. |
| `Tasks.StoredListing` | index.js:66-85 | If every stored task has a positive id and non-empty desc, deadline and priority (the invariant the create route keeps, part of `Store.Valid`), so has every task a user lists. |
| `Tasks.OwnedByUpdateOther` | index.js:94-95 | Changing a task that belongs to neither `v` before nor after leaves `v`'s listing unchanged. |
| `Tasks.OwnedByRemoveOther` | index.js:104 | Splicing out a task that is not `v`'s leaves `v`'s listing unchanged. |
| `Tasks.CompletedIsolation` | index.js:92-95 | Marking done on behalf of one user never changes what any other user lists. |
| `Tasks.RemovedIsolation` | index.js:102-104 | Deleting on behalf of one user never changes what any other user lists, so another user's task is never removed. |
| `Tasks.CompletedIdempotent` | index.js:92-96 | A second mark-done finds the same task, so it succeeds again, and leaves the table as the first call left it. |
| `Tasks.CountMatching` | index.js:102 | The number of the caller's tasks with the id is zero exactly when the lookup fails. |
| `Tasks.CountMatchingAppend` | index.js:102 | Counting matches distributes over concatenation. |
| `Tasks.RemovedDropsOne` | index.js:102-104 | A delete that finds a task shortens the table by one, removes exactly one of the caller's tasks with that id and shortens the caller's listing by one. A later lookup of the id fails exactly when that was the only such task. |
| `Tasks.IdReusedAfterDelete` | index.js:77-104 | If the last task's id equals the table length and a delete removes an earlier task, the next created task gets the same id as the last one. Ids are not unique. |
| `Server.Store.constructor` | index.js:16-17 | The store starts with no users and no tasks. |
| `Server.Store.Register` | index.js:34-46 | Falsy username or password gives `MissingFields`, and a taken username gives `DuplicateUsername`; in both cases `users` is unchanged. Otherwise exactly one record `(old length + 1, username, hash)` is appended and earlier records are untouched. `tasks` never changes, and the registry invariant is kept. |
| `Server.Store.CreateTask` | index.js:71-87 | Falsy `desc` or `deadline` gives `MissingFields` with `tasks` unchanged. Otherwise one task is appended with id old length + 1, the caller as owner, the given desc and deadline, status "En cours", the given priority or "normal", and no notification sent. It ends the caller's listing, and every other user's listing is unchanged. |
| `Server.Store.MarkDone` | index.js:90-97 | With no task matching id and caller: `NotFound`, and nothing changes. Otherwise only the first such task changes: its status becomes "Terminé" and its notification flag false. Every other task is unchanged, and so is every other user's listing. |
| `Server.Store.DeleteTask` | index.js:100-106 | With no task matching id and caller: `NotFound`, and nothing changes. Otherwise exactly the first such task is spliced out. The rest keep their order, and every other user's listing is unchanged. |

## Left out

- Express setup, CORS, JSON body parsing, the `/` liveness route and `app.listen` (index.js:6-12, 108-115): framework plumbing and I/O.
- HTTP status codes and message strings: each error response is an `ApiError` variant, with the status noted beside it. Response objects are not modelled.
- `bcrypt.hash` (index.js:42) is randomized by its salt: `Store.Register` receives the resulting hash as a parameter. `bcrypt.compare` (index.js:57) is the parameter `compare`. The cost factor and the constant-time comparison belong to that library.
- `jwt.sign`, the 7-day expiry and the fallback secret (index.js:8, 25, 60) depend on the token library and on the clock. `Users.Login` returns the claims the route signs, not the signed string. `jwt.verify` is the parameter `verify`, and a token's expiry shows up only as `verify` returning nothing. Projecting the payload onto `{id, username}` (index.js:26) is folded into `verify`.
- `parseInt` of the route parameter (index.js:91, 101) is not modelled. The handlers take its result as `Option<int>`, where none stands for NaN, which matches no task.
- Body fields that are JSON numbers, booleans or objects: fields are modelled as absent or as strings only.
- The `await` in the register route (index.js:42) lets another request run between the duplicate check and the push. The model treats each handler as atomic, so the race that could register a name twice is not captured.
