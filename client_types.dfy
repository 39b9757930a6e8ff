/** Values the client pages share: the signed-in user and the owner field
    of a fetched record. */
module ClientTypes {
  import opened Common
  import Lists

  /** The user object the session holds (the public view the API returns). */
  datatype ClientUser = ClientUser(id: ObjectId, name: string, email: string)

  /** An owner field as it arrives in JSON: missing, a bare id, or a
      populated user object carrying `_id`. */
  datatype OwnerRef = Absent | RawId(id: ObjectId) | Populated(id: ObjectId, name: string)

  /** The ownership comparison `ref._id === uid || ref === uid`, for a
      present reference. A bare id string has no `_id` and an object is
      never `===` to a string, so exactly one disjunct can apply. */
  predicate OwnedBy(ref: OwnerRef, uid: ObjectId) {
    match ref
    case Absent => false
    case RawId(id) => id == uid
    case Populated(id, _) => id == uid
  }

  /** A toast notification raised by a page handler. */
  datatype Toast = NoToast | SuccessToast(text: string) | ErrorToast(text: string)

  /** The list after a successful delete of `id`, filtering out every entry
      whose `_id` equals it: exactly those entries are gone, and the rest
      keep their order and multiplicity. */
  function RemoveById<T(==,!new)>(s: seq<T>, idOf: T -> ObjectId, id: ObjectId): (r: seq<T>)
    ensures forall x :: x in r <==> x in s && idOf(x) != id
    ensures forall x :: multiset(r)[x] == if idOf(x) == id then 0 else multiset(s)[x]
    ensures Lists.IsSubsequence(r, s)
  {
    Lists.Filter(s, (x: T) => idOf(x) != id)
  }
}
