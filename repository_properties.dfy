/** What the in-memory repository guarantees across a sequence of calls:
    the invariant is kept, the ids Create hands out are consecutive and
    never reused (even after a delete), and a user no call names stays as
    it was. */
module RepositoryProperties {
  import opened Model
  import opened Repository

  /** A state-changing call on the repository. */
  datatype Op = CreateOp(user: User) | UpdateOp(id: int, patch: User) | DeleteOp(id: int)

  /** The store after one call. */
  function Apply(s: Store, op: Op): Store
  {
    match op
    case CreateOp(u) => CreateStep(s, u).store
    case UpdateOp(id, patch) => UpdateStep(s, id, patch).store
    case DeleteOp(id) => DeleteStep(s, id).store
  }

  /** The store after the calls, made one after another. */
  function Run(s: Store, ops: seq<Op>): Store
    decreases |ops|
  {
    if ops == [] then s else Run(Apply(s, ops[0]), ops[1..])
  }

  /** The ids the Create calls among `ops` hand out, in call order. */
  function IssuedIds(s: Store, ops: seq<Op>): seq<int>
    decreases |ops|
  {
    if ops == [] then []
    else
      (if ops[0].CreateOp? then [CreateStep(s, ops[0].user).value.id] else [])
      + IssuedIds(Apply(s, ops[0]), ops[1..])
  }

  /** How many of the calls are Create calls. */
  function CreateCount(ops: seq<Op>): nat
  {
    if ops == [] then 0
    else (if ops[0].CreateOp? then 1 else 0) + CreateCount(ops[1..])
  }

  /** True when `op` is an Update or a Delete of `id`. */
  predicate Names(op: Op, id: int)
  {
    (op.UpdateOp? || op.DeleteOp?) && op.id == id
  }

  /** Every operation keeps the repository invariant. */
  lemma {:induction false} RunKeepsWellFormed(s: Store, ops: seq<Op>)
    requires WellFormed(s)
    ensures WellFormed(Run(s, ops))
    decreases |ops|
  {
    if ops != [] {
      RunKeepsWellFormed(Apply(s, ops[0]), ops[1..]);
    }
  }

  /** The counter moves on by one per Create and by nothing else, and the
      ids handed out are exactly the values it passes through: one per
      Create, consecutive, without gaps. */
  lemma {:induction false} IssuedIdsAreConsecutive(s: Store, ops: seq<Op>)
    ensures |IssuedIds(s, ops)| == CreateCount(ops)
    ensures Run(s, ops).idSeq == s.idSeq + CreateCount(ops)
    ensures forall i :: 0 <= i < |IssuedIds(s, ops)| ==> IssuedIds(s, ops)[i] == s.idSeq + i
    decreases |ops|
  {
    if ops != [] {
      IssuedIdsAreConsecutive(Apply(s, ops[0]), ops[1..]);
    }
  }

  /** No id is handed out twice, and none is the key of a user stored
      before the calls. */
  lemma IssuedIdsAreFreshAndDistinct(s: Store, ops: seq<Op>)
    requires WellFormed(s)
    ensures forall i, j :: 0 <= i < j < |IssuedIds(s, ops)| ==> IssuedIds(s, ops)[i] < IssuedIds(s, ops)[j]
    ensures forall i :: 0 <= i < |IssuedIds(s, ops)| ==>
              IssuedIds(s, ops)[i] >= 1 && IssuedIds(s, ops)[i] !in s.users
  {
    IssuedIdsAreConsecutive(s, ops);
  }

  /** The id the next Create hands out, whatever happened before, is larger
      than every id handed out before and every key stored at the start. */
  lemma NextIdExceedsEveryEarlierId(s: Store, ops: seq<Op>, u: User)
    requires WellFormed(s)
    ensures forall i :: 0 <= i < |IssuedIds(s, ops)| ==>
              IssuedIds(s, ops)[i] < CreateStep(Run(s, ops), u).value.id
    ensures forall k :: k in s.users ==> k < CreateStep(Run(s, ops), u).value.id
  {
    IssuedIdsAreConsecutive(s, ops);
  }

  /** An id that was handed out but is no longer stored (it was deleted)
      is never stored again: ids are not reused. */
  lemma {:induction false} AbsentIdStaysAbsent(s: Store, ops: seq<Op>, id: int)
    requires id < s.idSeq && id !in s.users
    ensures id !in Run(s, ops).users
    decreases |ops|
  {
    if ops != [] {
      AbsentIdStaysAbsent(Apply(s, ops[0]), ops[1..], id);
    }
  }

  /** A user stored before the calls, under a key no Update or Delete among
      them names, is found unchanged afterwards. */
  lemma {:induction false} UnnamedUserIsUntouched(s: Store, ops: seq<Op>, id: int)
    requires id < s.idSeq
    requires forall i :: 0 <= i < |ops| ==> !Names(ops[i], id)
    ensures Lookup(Run(s, ops), id) == Lookup(s, id)
    decreases |ops|
  {
    if ops != [] {
      assert !Names(ops[0], id);
      UnnamedUserIsUntouched(Apply(s, ops[0]), ops[1..], id);
    }
  }

  /** Update only changes the fields it is given: a name-only patch keeps
      the stored email, an email-only patch keeps the stored name. */
  lemma PartialUpdateKeepsOtherField(stored: User, name: string, email: string)
    ensures Merge(stored, User(0, name, "")) == stored.(name := if name != "" then name else stored.name)
    ensures Merge(stored, User(0, "", email)) == stored.(email := if email != "" then email else stored.email)
  {
  }

  /** An empty patch changes nothing, and applying the same patch twice is
      the same as applying it once. */
  lemma MergeIsIdempotent(stored: User, patch: User)
    ensures Merge(stored, User(patch.id, "", "")) == stored
    ensures Merge(Merge(stored, patch), patch) == Merge(stored, patch)
  {
  }
}
