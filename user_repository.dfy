/** The in-memory user repository (repository/user_repository.go): a map
    from id to user and the counter that hands out the next id.

    The module first states the repository's behaviour on values (a `Store`
    and one step function per operation), then gives the object the rest
    of the service holds, `InMemoryUserRepository`, whose methods change its
    fields as the Go methods do and are proved to follow the step
    functions. */
module Repository {
  import opened Model

  /** The repository's state: the stored users by id, and the id the next
      Create will assign. */
  datatype Store = Store(users: map<int, User>, idSeq: int)

  /** What a state-changing operation leaves behind: the new store and the
      value it returned. */
  datatype Step<+T> = Step(store: Store, value: T)

  /** The repository invariant: the counter starts at 1 and never falls
      behind, every key was handed out by it, and the user stored under a
      key carries that key as its id. */
  predicate WellFormed(s: Store)
  {
    && s.idSeq >= 1
    && forall k :: k in s.users ==> 1 <= k < s.idSeq && s.users[k].id == k
  }

  /** NewUserRepository: no users, and the first id handed out is 1. */
  function Empty(): (s: Store)
    ensures WellFormed(s)
    ensures |s.users| == 0
    ensures s.idSeq == 1
    ensures forall id :: Lookup(s, id) == Err(UserNotFound)
  {
    Store(map[], 1)
  }

  /** GetByID: the stored user, or "user not found". */
  function Lookup(s: Store, id: int): (r: Result<User>)
    ensures r.Ok? <==> id in s.users
    ensures r.Err? ==> r.error == UserNotFound
    ensures r.Ok? ==> r.value == s.users[id]
    ensures WellFormed(s) && r.Ok? ==> r.value.id == id
  {
    if id in s.users then Ok(s.users[id]) else Err(UserNotFound)
  }

  /** Create: the user gets the current counter as its id, is stored under
      it, and the counter moves on by one. */
  function CreateStep(s: Store, u: User): (r: Step<User>)
    ensures r.value.name == u.name && r.value.email == u.email
    ensures r.store.idSeq == s.idSeq + 1
    ensures r.store.users.Keys == s.users.Keys + {r.value.id}
    ensures Lookup(r.store, r.value.id) == Ok(r.value)
    ensures forall k :: k != r.value.id ==> Lookup(r.store, k) == Lookup(s, k)
    ensures WellFormed(s) ==>
              && WellFormed(r.store)
              && r.value.id >= 1
              && r.value.id !in s.users
              && (forall k :: k in s.users ==> k < r.value.id)
  {
    var created := u.(id := s.idSeq);
    Step(Store(s.users[created.id := created], s.idSeq + 1), created)
  }

  /** The partial merge of Update: a non-empty field of the patch replaces
      the stored one, an empty one keeps it, and the id is never touched. */
  function Merge(stored: User, patch: User): (m: User)
    ensures m.id == stored.id
    ensures m.name == "" <==> stored.name == "" && patch.name == ""
    ensures m.email == "" <==> stored.email == "" && patch.email == ""
  {
    User(stored.id,
         if patch.name != "" then patch.name else stored.name,
         if patch.email != "" then patch.email else stored.email)
  }

  /** Update: "user not found" and no change on a missing id; otherwise the
      stored user is replaced by its merge with the patch, and nothing else
      changes. */
  function UpdateStep(s: Store, id: int, patch: User): (r: Step<Result<User>>)
    ensures r.value.Ok? <==> id in s.users
    ensures r.value.Err? ==> r.value.error == UserNotFound && r.store == s
    ensures r.value.Ok? ==> r.value.value == Merge(s.users[id], patch)
    ensures r.value.Ok? ==> Lookup(r.store, id) == r.value
    ensures r.store.idSeq == s.idSeq && r.store.users.Keys == s.users.Keys
    ensures forall k :: k != id ==> Lookup(r.store, k) == Lookup(s, k)
    ensures WellFormed(s) ==> WellFormed(r.store)
  {
    if id !in s.users then Step(s, Err(UserNotFound))
    else
      var merged := Merge(s.users[id], patch);
      Step(Store(s.users[id := merged], s.idSeq), Ok(merged))
  }

  /** Delete: "user not found" and no change on a missing id; otherwise
      exactly that key goes and the counter stays. */
  function DeleteStep(s: Store, id: int): (r: Step<Result<()>>)
    ensures r.value.Ok? <==> id in s.users
    ensures r.value.Err? ==> r.value.error == UserNotFound && r.store == s
    ensures r.store.users.Keys == s.users.Keys - {id}
    ensures r.store.idSeq == s.idSeq
    ensures Lookup(r.store, id) == Err(UserNotFound)
    ensures forall k :: k != id ==> Lookup(r.store, k) == Lookup(s, k)
    ensures WellFormed(s) ==> WellFormed(r.store)
  {
    if id !in s.users then Step(s, Err(UserNotFound))
    else Step(Store(s.users - {id}, s.idSeq), Ok(()))
  }

  /** A non-empty key set has a key to pick. */
  lemma NonEmptyHasKey(keys: set<int>)
    requires keys != {}
    ensures exists k :: k in keys
  {
    if forall k :: k !in keys {
      assert false;
    }
  }

  /** The users stored under the given keys. */
  ghost function StoredUnder(users: map<int, User>, keys: set<int>): set<User>
  {
    set k | k in keys && k in users :: users[k]
  }

  /** The repository object. The Go struct's lock is not modelled: every
      operation here runs to completion before the next one starts. */
  class InMemoryUserRepository {
    var users: map<int, User>
    var idSeq: int

    /** The object's state as a value. */
    function Abs(): Store
      reads this
    {
      Store(users, idSeq)
    }

    predicate Valid()
      reads this
    {
      WellFormed(Abs())
    }

    /** NewUserRepository. */
    constructor ()
      ensures Valid()
      ensures Abs() == Empty()
    {
      users := map[];
      idSeq := 1;
    }

    method Create(u: User) returns (created: User)
      requires Valid()
      modifies this
      ensures Valid()
      ensures created == u.(id := old(idSeq))
      ensures users == old(users)[created.id := created]
      ensures idSeq == old(idSeq) + 1
      ensures Step(Abs(), created) == CreateStep(old(Abs()), u)
    {
      created := u.(id := idSeq);
      idSeq := idSeq + 1;
      users := users[created.id := created];
    }

    method GetByID(id: int) returns (r: Result<User>)
      requires Valid()
      ensures r == Lookup(Abs(), id)
      ensures id in users ==> r == Ok(users[id]) && r.value.id == id
      ensures id !in users ==> r == Err(UserNotFound)
    {
      if id !in users {
        return Err(UserNotFound);
      }
      r := Ok(users[id]);
    }

    /** GetAll: every stored user exactly once, in the order the keys are
        picked; that order is left open, as Go's map iteration order is. */
    method GetAll() returns (all: seq<User>)
      requires Valid()
      ensures |all| == |users|
      ensures multiset(all) == multiset(users.Values)
    {
      all := [];
      var rest := users.Keys;
      ghost var done: set<int> := {};
      while rest != {}
        invariant rest !! done && rest + done == users.Keys
        invariant |all| == |done|
        invariant multiset(all) == multiset(StoredUnder(users, done))
        decreases rest
      {
        NonEmptyHasKey(rest);
        var k :| k in rest;
        assert StoredUnder(users, done + {k}) == StoredUnder(users, done) + {users[k]};
        assert users[k] !in StoredUnder(users, done);
        all := all + [users[k]];
        rest := rest - {k};
        done := done + {k};
      }
      assert done == users.Keys;
      forall u | u in users.Values
        ensures u in StoredUnder(users, done)
      {
        if forall j :: j in users ==> users[j] != u {
          assert false;
        }
        var j :| j in users && users[j] == u;
        assert j in done;
      }
      assert StoredUnder(users, done) == users.Values;
    }

    method Update(id: int, patch: User) returns (r: Result<User>)
      requires Valid()
      modifies this
      ensures Valid()
      ensures idSeq == old(idSeq)
      ensures id !in old(users) ==> r == Err(UserNotFound) && users == old(users)
      ensures id in old(users) ==>
                && r == Ok(Merge(old(users)[id], patch))
                && users == old(users)[id := r.value]
      ensures Step(Abs(), r) == UpdateStep(old(Abs()), id, patch)
    {
      if id !in users {
        return Err(UserNotFound);
      }
      var existing := users[id];
      if patch.name != "" {
        existing := existing.(name := patch.name);
      }
      if patch.email != "" {
        existing := existing.(email := patch.email);
      }
      users := users[id := existing];
      r := Ok(existing);
    }

    method Delete(id: int) returns (r: Result<()>)
      requires Valid()
      modifies this
      ensures Valid()
      ensures idSeq == old(idSeq)
      ensures id !in old(users) ==> r == Err(UserNotFound) && users == old(users)
      ensures id in old(users) ==> r == Ok(()) && users == old(users) - {id}
      ensures Step(Abs(), r) == DeleteStep(old(Abs()), id)
    {
      if id !in users {
        return Err(UserNotFound);
      }
      users := users - {id};
      r := Ok(());
    }
  }
}
