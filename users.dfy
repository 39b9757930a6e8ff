/** The part of the user collection the controllers write: each user's
    contribution counter. */
module Users {
  import opened Common

  /** The counters after `$inc: { contributions: delta }` on user `u`. An
      update of an id with no user document changes nothing, as
      `findByIdAndUpdate` without upsert does; the counter has no floor. */
  function Bumped(m: map<ObjectId, int>, u: ObjectId, delta: int): (r: map<ObjectId, int>)
    ensures r.Keys == m.Keys
    ensures u in m ==> r[u] == m[u] + delta
    ensures forall v :: v in m && v != u ==> r[v] == m[v]
  {
    if u in m then m[u := m[u] + delta] else m
  }

  /** Adding and then withdrawing the same amount restores every counter. */
  lemma BumpedCancels(m: map<ObjectId, int>, u: ObjectId, delta: int)
    ensures Bumped(Bumped(m, u, delta), u, -delta) == m
  {
  }

  class UserTable {
    var contributions: map<ObjectId, int>

    constructor (initial: map<ObjectId, int>)
      ensures contributions == initial
    {
      contributions := initial;
    }

    method Increment(u: ObjectId, delta: int)
      modifies this
      ensures contributions == Bumped(old(contributions), u, delta)
    {
      if u in contributions {
        contributions := contributions[u := contributions[u] + delta];
      }
    }
  }
}
