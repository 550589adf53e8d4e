/** Backend selection at start-up (the repository choice in
    router/router.go's SetupRouter): the DB_TYPE setting and which database
    handles exist decide which repository the use case gets. */
module Router {
  import opened Repository
  import opened Usecase

  /** The three repository implementations. */
  datatype Backend = Postgres | Mongo | InMemory

  /** The selection table. "postgres" and "mongodb" ask for that store and
      fall back to the in-memory repository when its handle is missing; any
      other value, the empty one included, takes Postgres when it is there
      and the in-memory repository otherwise. */
  function SelectBackend(dbType: string, postgresUp: bool, mongoUp: bool): (b: Backend)
    ensures b == Postgres ==> postgresUp && dbType != "mongodb"
    ensures b == Mongo ==> mongoUp && dbType == "mongodb"
    ensures b == InMemory <==> if dbType == "mongodb" then !mongoUp else !postgresUp
  {
    match dbType
    case "postgres" => if postgresUp then Postgres else InMemory
    case "mongodb" => if mongoUp then Mongo else InMemory
    case _ => if postgresUp then Postgres else InMemory
  }

  /** The selection never picks a store whose handle is missing, picks
      Mongo only when asked to by name, and otherwise prefers Postgres
      whenever it is there. */
  lemma SelectionFollowsAvailability(dbType: string, postgresUp: bool, mongoUp: bool)
    ensures dbType == "mongodb" && mongoUp ==> SelectBackend(dbType, postgresUp, mongoUp) == Mongo
    ensures dbType != "mongodb" && postgresUp ==> SelectBackend(dbType, postgresUp, mongoUp) == Postgres
    ensures dbType != "mongodb" ==> SelectBackend(dbType, postgresUp, mongoUp) == SelectBackend("postgres", postgresUp, mongoUp)
    ensures !postgresUp && !mongoUp ==> SelectBackend(dbType, postgresUp, mongoUp) == InMemory
  {
  }

  /** The wiring: the selected backend, and, when it is the in-memory one,
      the use case built over a fresh, empty in-memory repository. The
      Postgres and Mongo repositories are not part of this model, so no
      use case is built for them. */
  method SetupUsecase(dbType: string, postgresUp: bool, mongoUp: bool)
    returns (b: Backend, uc: UserUsecase?)
    ensures b == SelectBackend(dbType, postgresUp, mongoUp)
    ensures uc != null <==> b == InMemory
    ensures uc != null ==> fresh(uc) && fresh(uc.repo) && uc.repo.Valid() && uc.repo.Abs() == Empty()
  {
    b := SelectBackend(dbType, postgresUp, mongoUp);
    uc := null;
    if b == InMemory {
      var repo := new InMemoryUserRepository();
      uc := new UserUsecase(repo);
    }
  }
}
