/** The use-case layer (usecase/user_usecase.go): input validation in front
    of the repository. A create request needs a name and then an email; the
    other id-taking operations need a positive id. Everything else is the
    repository's answer, passed through unchanged.

    As for the repository, the behaviour is first stated on values (one
    step function per operation over a `Store`), then the object the
    service holds, `UserUsecase`, is proved to follow it. Only the in-memory
    repository is modelled as the use case's backend. */
module Usecase {
  import opened Model
  import opened Repository

  /** The create-request check, name first: the user to hand to the
      repository, or the validation error. */
  function ValidateCreate(req: CreateUserRequest): (r: Result<User>)
    ensures r.Ok? <==> req.name != "" && req.email != ""
    ensures r.Ok? ==> r.value.name == req.name && r.value.email == req.email
    ensures req.name == "" ==> r == Err(NameRequired)
    ensures req.name != "" && req.email == "" ==> r == Err(EmailRequired)
  {
    if req.name == "" then Err(NameRequired)
    else if req.email == "" then Err(EmailRequired)
    else Ok(User(0, req.name, req.email))
  }

  /** The id check shared by get, update and delete. */
  predicate ValidId(id: int)
  {
    id > 0
  }

  /** The partial user an update request is forwarded as. */
  function Patch(req: UpdateUserRequest): (u: User)
    ensures u.name == req.name && u.email == req.email
  {
    User(0, req.name, req.email)
  }

  /** CreateUser: a validation error leaves the store as it was; otherwise
      the repository's Create result is the answer. */
  function CreateUserStep(s: Store, req: CreateUserRequest): (r: Step<Result<User>>)
    ensures r.value.Err? ==> r.store == s && r.value == ValidateCreate(req)
    ensures r.value.Ok? <==> ValidateCreate(req).Ok?
    ensures r.value.Ok? ==>
              var c := CreateStep(s, ValidateCreate(req).value);
              r.store == c.store && r.value.value == c.value
  {
    match ValidateCreate(req)
    case Err(e) => Step(s, Err(e))
    case Ok(u) =>
      var c := CreateStep(s, u);
      Step(c.store, Ok(c.value))
  }

  /** GetUserByID: an invalid id is rejected, any other id is looked up. */
  function GetUserStep(s: Store, id: int): (r: Result<User>)
    ensures !ValidId(id) ==> r == Err(InvalidUserId)
    ensures ValidId(id) ==> r == Lookup(s, id)
  {
    if id <= 0 then Err(InvalidUserId) else Lookup(s, id)
  }

  /** UpdateUser: an invalid id is rejected with no change; otherwise the
      request goes to the repository's Update as a partial user. */
  function UpdateUserStep(s: Store, id: int, req: UpdateUserRequest): (r: Step<Result<User>>)
    ensures !ValidId(id) ==> r == Step(s, Err(InvalidUserId))
    ensures ValidId(id) ==> r == UpdateStep(s, id, Patch(req))
    ensures r.value.Ok? ==>
              && id in s.users
              && r.value.value.id == s.users[id].id
              && r.value.value.name == (if req.name == "" then s.users[id].name else req.name)
              && r.value.value.email == (if req.email == "" then s.users[id].email else req.email)
  {
    if id <= 0 then Step(s, Err(InvalidUserId)) else UpdateStep(s, id, Patch(req))
  }

  /** DeleteUser: an invalid id is rejected with no change; otherwise the
      repository's Delete decides. */
  function DeleteUserStep(s: Store, id: int): (r: Step<Result<()>>)
    ensures !ValidId(id) ==> r == Step(s, Err(InvalidUserId))
    ensures ValidId(id) ==> r == DeleteStep(s, id)
    ensures r.value.Ok? <==> ValidId(id) && id in s.users
  {
    if id <= 0 then Step(s, Err(InvalidUserId)) else DeleteStep(s, id)
  }

  /** The use-case object, holding the repository it delegates to. */
  class UserUsecase {
    const repo: InMemoryUserRepository

    /** NewUserUsecase. */
    constructor (repo: InMemoryUserRepository)
      ensures this.repo == repo
    {
      this.repo := repo;
    }

    method CreateUser(req: CreateUserRequest) returns (r: Result<User>)
      requires repo.Valid()
      modifies repo
      ensures repo.Valid()
      ensures Step(repo.Abs(), r) == CreateUserStep(old(repo.Abs()), req)
    {
      if req.name == "" {
        return Err(NameRequired);
      }
      if req.email == "" {
        return Err(EmailRequired);
      }
      var user := User(0, req.name, req.email);
      var created := repo.Create(user);
      r := Ok(created);
    }

    method GetUserByID(id: int) returns (r: Result<User>)
      requires repo.Valid()
      ensures r == GetUserStep(repo.Abs(), id)
      ensures r.Ok? ==> ValidId(id) && r.value.id == id && repo.users[id] == r.value
      ensures r.Err? ==> r.error == (if ValidId(id) then UserNotFound else InvalidUserId)
    {
      if id <= 0 {
        return Err(InvalidUserId);
      }
      r := repo.GetByID(id);
    }

    /** GetAllUsers: no validation, the repository's list as it is. */
    method GetAllUsers() returns (all: seq<User>)
      requires repo.Valid()
      ensures |all| == |repo.users|
      ensures multiset(all) == multiset(repo.users.Values)
    {
      all := repo.GetAll();
    }

    method UpdateUser(id: int, req: UpdateUserRequest) returns (r: Result<User>)
      requires repo.Valid()
      modifies repo
      ensures repo.Valid()
      ensures Step(repo.Abs(), r) == UpdateUserStep(old(repo.Abs()), id, req)
    {
      if id <= 0 {
        return Err(InvalidUserId);
      }
      var user := User(0, req.name, req.email);
      r := repo.Update(id, user);
    }

    method DeleteUser(id: int) returns (r: Result<()>)
      requires repo.Valid()
      modifies repo
      ensures repo.Valid()
      ensures Step(repo.Abs(), r) == DeleteUserStep(old(repo.Abs()), id)
    {
      if id <= 0 {
        return Err(InvalidUserId);
      }
      r := repo.Delete(id);
    }
  }
}
