/** What the use-case layer guarantees on top of the in-memory repository:
    reading back a created user, rejection without side effects, errors
    passed through, and stored users that always have a name and an email
    when every change goes through the use case. */
module UsecaseProperties {
  import opened Model
  import opened Repository
  import opened Usecase

  /** A state-changing use-case call. */
  datatype Call =
    | CreateCall(create: CreateUserRequest)
    | UpdateCall(id: int, update: UpdateUserRequest)
    | DeleteCall(id: int)

  /** The store after one use-case call. */
  function ApplyCall(s: Store, c: Call): Store
  {
    match c
    case CreateCall(req) => CreateUserStep(s, req).store
    case UpdateCall(id, req) => UpdateUserStep(s, id, req).store
    case DeleteCall(id) => DeleteUserStep(s, id).store
  }

  /** The store after the calls, made one after another. */
  function RunCalls(s: Store, calls: seq<Call>): Store
    decreases |calls|
  {
    if calls == [] then s else RunCalls(ApplyCall(s, calls[0]), calls[1..])
  }

  /** Every stored user has a non-empty name and a non-empty email. */
  predicate FieldsFilled(s: Store)
  {
    forall k :: k in s.users ==> s.users[k].name != "" && s.users[k].email != ""
  }

  /** Create, then get by the returned id: the same name and email come
      back, under a positive id. */
  lemma CreateThenGet(s: Store, req: CreateUserRequest)
    requires WellFormed(s)
    requires req.name != "" && req.email != ""
    ensures CreateUserStep(s, req).value.Ok?
    ensures var created := CreateUserStep(s, req).value.value;
            && ValidId(created.id)
            && GetUserStep(CreateUserStep(s, req).store, created.id)
               == Ok(User(created.id, req.name, req.email))
  {
  }

  /** A create request that fails validation names the first missing field
      and leaves the store as it was. */
  lemma InvalidCreateChangesNothing(s: Store, req: CreateUserRequest)
    requires req.name == "" || req.email == ""
    ensures CreateUserStep(s, req).store == s
    ensures CreateUserStep(s, req).value == Err(if req.name == "" then NameRequired else EmailRequired)
  {
  }

  /** A non-positive id is rejected by get, update and delete, and nothing
      changes. */
  lemma InvalidIdChangesNothing(s: Store, id: int, req: UpdateUserRequest)
    requires id <= 0
    ensures GetUserStep(s, id) == Err(InvalidUserId)
    ensures UpdateUserStep(s, id, req) == Step(s, Err(InvalidUserId))
    ensures DeleteUserStep(s, id) == Step(s, Err(InvalidUserId))
  {
  }

  /** With a valid id, the repository's "user not found" comes back as it
      is, and nothing changes. */
  lemma NotFoundPassesThrough(s: Store, id: int, req: UpdateUserRequest)
    requires ValidId(id) && id !in s.users
    ensures GetUserStep(s, id) == Err(UserNotFound)
    ensures UpdateUserStep(s, id, req) == Step(s, Err(UserNotFound))
    ensures DeleteUserStep(s, id) == Step(s, Err(UserNotFound))
  {
  }

  /** An update with only a name keeps the stored email, and one with only
      an email keeps the stored name. */
  lemma PartialUpdateThroughUsecase(s: Store, id: int, name: string, email: string)
    requires WellFormed(s) && id in s.users
    ensures name != "" ==>
              UpdateUserStep(s, id, UpdateUserRequest(name, "")).value
              == Ok(User(id, name, s.users[id].email))
    ensures email != "" ==>
              UpdateUserStep(s, id, UpdateUserRequest("", email)).value
              == Ok(User(id, s.users[id].name, email))
  {
  }

  /** Through the use case, both invariants survive any sequence of calls:
      the repository invariant, and that no stored user lacks a name or an
      email (create insists on both, update never empties a field). */
  lemma {:induction false} UsecaseKeepsInvariants(s: Store, calls: seq<Call>)
    requires WellFormed(s) && FieldsFilled(s)
    ensures WellFormed(RunCalls(s, calls)) && FieldsFilled(RunCalls(s, calls))
    decreases |calls|
  {
    if calls != [] {
      var s' := ApplyCall(s, calls[0]);
      assert FieldsFilled(s') by {
        forall k | k in s'.users
          ensures s'.users[k].name != "" && s'.users[k].email != ""
        {
          assert Lookup(s', k).Ok?;
          match calls[0]
          case CreateCall(req) =>
            if CreateUserStep(s, req).value.Err? || k != CreateUserStep(s, req).value.value.id {
              assert Lookup(s', k) == Lookup(s, k);
            }
          case UpdateCall(id, req) =>
            if k != id {
              assert Lookup(s', k) == Lookup(s, k);
            }
          case DeleteCall(id) =>
            assert Lookup(s', k) == Lookup(s, k);
        }
      }
      UsecaseKeepsInvariants(s', calls[1..]);
    }
  }

  /** The walk-through of the service: create Ann, read her back, rename
      her, delete her, and find her gone. */
  lemma AnnWalkthrough()
    ensures var s0 := Empty();
            var c := CreateUserStep(s0, CreateUserRequest("Ann", "ann@x.com"));
            && c.value == Ok(User(1, "Ann", "ann@x.com"))
            && GetUserStep(c.store, 1) == Ok(User(1, "Ann", "ann@x.com"))
            && var u := UpdateUserStep(c.store, 1, UpdateUserRequest("Annie", ""));
            && u.value == Ok(User(1, "Annie", "ann@x.com"))
            && var d := DeleteUserStep(u.store, 1);
            && d.value == Ok(())
            && GetUserStep(d.store, 1) == Err(UserNotFound)
  {
  }
}
