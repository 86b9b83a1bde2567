/** The whole state the admission pipeline reads and writes: concerts (with
    their tickets) in the database, and queue state per concert id in the
    coordination store. Distinct ids have distinct store keys
    (`QueueKeys.KeysInjective`, `QueueKeys.KeysDisjoint`), so a map from id to
    `QueueState` is a faithful picture of the key space. */
module Admission {
  import opened Ids
  import opened Concerts
  import opened ConcertQueue

  datatype World = World(concerts: map<Long, Concert>, queues: map<Long, QueueState>)

  /** The queue state of a concert; ids the store has no keys for read as empty. */
  function QueueOf(w: World, id: Long): QueueState {
    if id in w.queues then w.queues[id] else Empty
  }

  function WithQueue(w: World, id: Long, q: QueueState): (r: World)
    ensures QueueOf(r, id) == q
    ensures forall other :: other != id ==> QueueOf(r, other) == QueueOf(w, other)
    ensures r.concerts == w.concerts
  {
    w.(queues := w.queues[id := q])
  }

  /** A newly generated user id: in no waiting queue and no active set. */
  predicate Fresh(w: World, user: UserId) {
    forall id :: id in w.queues ==> user !in w.queues[id].waiting && user !in w.queues[id].active
  }

  /** `findByStatus(OPEN)`, as the set of the concerts' ids. */
  function OpenConcertIds(w: World): (ids: set<Long>)
    ensures forall id :: id in ids <==> id in w.concerts && w.concerts[id].status == Open
  {
    set id | id in w.concerts && w.concerts[id].status == Open
  }
}
