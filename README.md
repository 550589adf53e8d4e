# User service core, modelled in Dafny

This project models the sequential core of a small Go CRUD service for a
single "user" entity. It has three parts:

- **The in-memory user repository** (`repository/user_repository.go`).
  It keeps a map from integer id to `User` and a counter `idSeq` that
  hands out ids, starting at 1. Its operations are Create, GetByID,
  GetAll, Update (a partial merge: only non-empty fields overwrite) and
  Delete.
- **The use-case layer** (`usecase/user_usecase.go`). It validates input
  and passes everything else to the repository:
  - create needs a name, then an email;
  - get, update and delete need a positive id;
  - repository errors come back unchanged.
- **Backend selection at start-up** (`router/router.go`). The `DB_TYPE`
  setting and which database handles exist pick Postgres, Mongo or the
  in-memory repository.

Files:

- `user.dfy` (module `Model`): the `User` record, the two request records,
  the error kinds, and `Result`.
- `user_repository.dfy` (module `Repository`):
  - the repository state as a value (`Store`) and its invariant
    `WellFormed`: every key `k` satisfies `1 <= k < idSeq`, and the user
    stored under `k` has id `k`;
  - one step function per operation;
  - the class `InMemoryUserRepository`. Its methods update the `users` and
    `idSeq` fields as the Go methods do. Each method's postcondition spells
    out the new fields and ties them to the step function. `GetAll` keeps
    the source's loop over the map.
- `repository_properties.dfy` (module `RepositoryProperties`): facts about
  any sequence of repository calls.
  - The invariant is kept.
  - Create hands out ids one at a time, consecutively, without gaps.
  - Ids are never handed out twice, even after a delete.
  - A user that no call names stays as it was.
- `user_usecase.dfy` (module `Usecase`): the validation checks, one step
  function per use-case operation, and the class `UserUsecase`. Its
  methods delegate to an `InMemoryUserRepository`.
- `usecase_properties.dfy` (module `UsecaseProperties`):
  - create-then-get returns the same name and email;
  - a rejected request changes nothing;
  - "user not found" passes through unchanged;
  - partial updates keep the other field;
  - when every change goes through the use case, every stored user keeps a
    non-empty name and email;
  - a proof of the create / read / rename / delete walk-through.
- `router.dfy` (module `Router`): the selection table as a function over
  `Backend`, and the wiring that hands the selected in-memory repository to
  a new use case.

In the default branch the code never picks Mongo, even when Mongo is up
and Postgres is not (router/router.go:36-42, commented "Default to
in-memory or PostgreSQL if available"). It falls back to the in-memory
repository, and `SelectBackend` models this.

## Model

| member | source | states |
|---|---|---|
| `Repository.Empty` | repository/user_repository.go:27-32 | a new repository satisfies the invariant, holds no users, hands out 1 as its next id, and every lookup on it is "user not found" |
| `Repository.Lookup` | repository/user_repository.go:47-57 | GetByID succeeds exactly when the id is a key and then returns the user stored under it; otherwise the error is "user not found"; in a well-formed store a found user carries the requested id |
| `Repository.CreateStep` | repository/user_repository.go:35-44 | Create keeps the caller's name and email and adds exactly one key. The created user is found under its id; every other lookup is unchanged; the counter grows by one. On a well-formed store the new id is positive, not yet a key, larger than every key, and the invariant is kept |
| `Repository.Merge` | repository/user_repository.go:82-87 | the merge keeps the stored id; a merged field is empty only when both the stored and the patch field are empty |
| `Repository.UpdateStep` | repository/user_repository.go:73-90 | Update succeeds exactly when the id is a key. On a missing id it returns "user not found" and changes nothing. Otherwise it returns the merge, which is what is now stored. Keys, counter and every other user are unchanged, and the invariant is kept |
| `Repository.DeleteStep` | repository/user_repository.go:93-103 | Delete succeeds exactly when the id is a key. On a missing id it returns "user not found" and changes nothing. Otherwise it removes exactly that key; the counter and the other users are unchanged, and the invariant is kept |
| `Repository.InMemoryUserRepository.constructor` | repository/user_repository.go:27-32 | the new object satisfies the invariant and its state is the empty store with counter 1 |
| `Repository.InMemoryUserRepository.Create` | repository/user_repository.go:35-44 | the returned user is the argument with id set to the old counter, and it is stored under that id. The counter grows by one, the invariant is kept, and the new state is `CreateStep`'s |
| `Repository.InMemoryUserRepository.GetByID` | repository/user_repository.go:47-57 | returns the stored user (whose id is the requested one) when the id is a key, and "user not found" otherwise |
| `Repository.InMemoryUserRepository.GetAll` | repository/user_repository.go:60-70 | the result has one entry per key, and its multiset of users equals the multiset of the map's values, in any order. It is empty exactly when the map is |
| `Repository.InMemoryUserRepository.Update` | repository/user_repository.go:73-90 | on a missing id, "user not found" and the map unchanged. Otherwise the merged user is returned and replaces only that entry. The counter is unchanged, the invariant is kept, and the new state is `UpdateStep`'s |
| `Repository.InMemoryUserRepository.Delete` | repository/user_repository.go:93-103 | on a missing id, "user not found" and the map unchanged. Otherwise that key alone is removed. The counter is unchanged, the invariant is kept, and the new state is `DeleteStep`'s |
| `RepositoryProperties.RunKeepsWellFormed` | repository/user_repository.go:35-103 | every sequence of Create, Update and Delete calls keeps the invariant (keys in `[1, idSeq)`, each user stored under its own id) |
| `RepositoryProperties.IssuedIdsAreConsecutive` | repository/user_repository.go:39-40 | over any sequence of calls there is one id per Create. The ids are the counter's consecutive values from its starting point, and the counter ends that many steps further on |
| `RepositoryProperties.IssuedIdsAreFreshAndDistinct` | repository/user_repository.go:39-41 | the ids handed out by a sequence of calls strictly increase, are positive, and none was a key before the calls |
| `RepositoryProperties.NextIdExceedsEveryEarlierId` | repository/user_repository.go:39-40 | after any sequence of calls, the next Create's id is larger than every id handed out before it and every key present at the start |
| `RepositoryProperties.AbsentIdStaysAbsent` | repository/user_repository.go:93-103 | an id that was handed out and then deleted is never stored again, whatever calls follow: ids are not reused |
| `RepositoryProperties.UnnamedUserIsUntouched` | repository/user_repository.go:73-103 | a user stored before a sequence of calls, under a key that no Update or Delete names, is found unchanged afterwards |
| `RepositoryProperties.PartialUpdateKeepsOtherField` | repository/user_repository.go:82-87 | a name-only patch keeps the stored email, and an email-only patch keeps the stored name |
| `RepositoryProperties.MergeIsIdempotent` | repository/user_repository.go:82-87 | an empty patch changes nothing, and applying a patch twice equals applying it once |
| `Usecase.ValidateCreate` | usecase/user_usecase.go:33-38 | a create request passes exactly when both fields are non-empty. An empty name gives "name is required", even when the email is empty too. A named request with no email gives "email is required". A passing request keeps the name and email |
| `Usecase.Patch` | usecase/user_usecase.go:68-71 | an update request is forwarded with its name and email unchanged |
| `Usecase.CreateUserStep` | usecase/user_usecase.go:31-46 | a validation failure returns the validation error and leaves the store alone. Otherwise the answer and the new store are exactly the repository Create's |
| `Usecase.GetUserStep` | usecase/user_usecase.go:49-55 | a non-positive id gives "invalid user ID"; any other id gets the repository's lookup result unchanged |
| `Usecase.UpdateUserStep` | usecase/user_usecase.go:63-74 | a non-positive id gives "invalid user ID" with no change; any other id gets the repository Update's result unchanged. A success keeps the id, and an empty request field keeps the stored value |
| `Usecase.DeleteUserStep` | usecase/user_usecase.go:77-83 | a non-positive id gives "invalid user ID" with no change; any other id gets the repository Delete's result. Delete succeeds exactly for a positive id that is a key |
| `Usecase.UserUsecase.constructor` | usecase/user_usecase.go:24-28 | the use case holds the repository it was given |
| `Usecase.UserUsecase.CreateUser` | usecase/user_usecase.go:31-46 | the answer and the repository's new state are `CreateUserStep`'s, and the repository invariant is kept |
| `Usecase.UserUsecase.GetUserByID` | usecase/user_usecase.go:49-55 | a success means a positive id and the user stored under it. A failure is "invalid user ID" for a non-positive id and "user not found" otherwise |
| `Usecase.UserUsecase.GetAllUsers` | usecase/user_usecase.go:58-60 | without validation, returns every stored user exactly once, in any order |
| `Usecase.UserUsecase.UpdateUser` | usecase/user_usecase.go:63-74 | the answer and the repository's new state are `UpdateUserStep`'s, and the repository invariant is kept |
| `Usecase.UserUsecase.DeleteUser` | usecase/user_usecase.go:77-83 | the answer and the repository's new state are `DeleteUserStep`'s, and the repository invariant is kept |
| `UsecaseProperties.CreateThenGet` | usecase/user_usecase.go:40-45 | a valid create succeeds with a positive id, and getting that id returns the request's name and email |
| `UsecaseProperties.InvalidCreateChangesNothing` | usecase/user_usecase.go:33-38 | a create request missing a field fails with the first missing field's error and leaves the store unchanged |
| `UsecaseProperties.InvalidIdChangesNothing` | usecase/user_usecase.go:49-83 | get, update and delete with a non-positive id fail with "invalid user ID" and leave the store unchanged |
| `UsecaseProperties.NotFoundPassesThrough` | usecase/user_usecase.go:49-83 | for a positive id that is not stored, the repository's "user not found" comes back from get, update and delete unchanged, with the store unchanged |
| `UsecaseProperties.PartialUpdateThroughUsecase` | usecase/user_usecase.go:63-74 | updating only the name keeps the email, and updating only the email keeps the name; the id stays |
| `UsecaseProperties.UsecaseKeepsInvariants` | usecase/user_usecase.go:31-83 | over any sequence of use-case create, update and delete calls, the repository invariant holds, and so does "every stored user has a non-empty name and email" |
| `UsecaseProperties.AnnWalkthrough` | usecase/user_usecase.go:31-83 | from an empty repository: create Ann gives id 1; get 1 returns her; renaming to Annie keeps her email; delete succeeds; get 1 is then "user not found" |
| `Router.SelectBackend` | router/router.go:20-43 | Postgres is picked only when available and not asked for Mongo. Mongo is picked only when available and asked for by name. The in-memory repository is picked exactly when the store the setting leads to is unavailable |
| `Router.SelectionFollowsAvailability` | router/router.go:20-43 | "mongodb" with Mongo up gives Mongo. Any other setting with Postgres up gives Postgres. Every setting other than "mongodb" behaves like "postgres". With no database up the choice is in-memory |
| `Router.SetupUsecase` | router/router.go:20-45 | the selected backend follows the table. A use case is built exactly when the in-memory backend is selected, over a fresh, empty, valid repository |

## Left out

- The `sync.RWMutex` of the in-memory repository and everything about concurrent calls, including parallel creates. Every operation is modelled as running to completion before the next starts.
- Go pointer aliasing. In the source, Create writes the id into the caller's `User` and stores that same object. Update changes the stored object in place, and callers share it. The model stores immutable values: Create returns a copy with the id set, and Update stores the merged value. As a consequence, `WellFormed`, `RunKeepsWellFormed` and the id lemmas describe the Go repository only for callers that never reuse or mutate a `User` pointer. Calling `Create` twice with the same pointer leaves `users[1]` and `users[2]` holding one object with ID 2 (repository/user_repository.go:39-41). A caller that changes a user returned by `GetByID` changes the stored user too. The use case is a caller that keeps to this: it builds a fresh `User` on every create and update (usecase/user_usecase.go:40-43, 68-71).
- Repository.InMemoryUserRepository.Create: Go's `int` is 32 or 64 bits wide, so `idSeq` wraps after 2^31 - 1 or 2^63 - 1 creates. The model uses unbounded integers and does not model that overflow.
- Repository.InMemoryUserRepository.GetAll: the source returns a non-nil, possibly empty slice. A Dafny sequence cannot be nil, so "never nil" holds by construction and is not stated.
- The in-memory `Create` and `GetAll` never return an error in the source. The model gives them no error result. In the use case, only the validation errors and "user not found" are modelled.
- Errors are modelled as distinct kinds rather than as their message texts. The Go code creates them with `errors.New` and never compares them.
- The `UserRepository` interface is polymorphic; the model's use case is built over the in-memory repository only. The Postgres and Mongo adapters (`repository/postgres_user_repository.go`, `repository/mongo_user_repository.go`) pass calls through to database drivers that are not part of this model. This includes the Mongo id conversion and their nil-slice `GetAll`.
- Router.SetupUsecase: for the Postgres and Mongo backends it returns only the choice. The use case that router/router.go:45 builds over those repositories is not modelled, since they are left out.
- The DB_TYPE environment read and the database handles are parameters of the selection (`dbType`, `postgresUp`, `mongoUp`). Connection bootstrap (`database/*.go`), `config/config.go`, `main.go` and signal handling are not part of this model.
- `repository/redis_cache.go` is not part of this model: it wraps a Redis client and JSON encoding, and the use case never calls it.
- The HTTP routes, the controller, and the request-binding tags of `model/user.go` are not part of this model. This includes the email-format check, which a library does.
