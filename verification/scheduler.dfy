/** The promotion tick: for every OPEN concert, top up the active set from
    the front of the waiting queue until it holds `limit` users. */
module Scheduler {
  import opened Ids
  import opened ConcertQueue
  import opened Admission

  /** Who ends up where when one tick promotes one OPEN concert's queue. The
      users promoted are the ones no longer waiting; they join the active set,
      and those still waiting keep their scores. With no free slot nothing
      changes. */
  predicate PromotedMembers(q: QueueState, r: QueueState, limit: int) {
    && r.soldOut == q.soldOut
    && (limit - |q.active| <= 0 ==> r == q)
    && (limit - |q.active| > 0 ==>
          && r.waiting.Keys <= q.waiting.Keys
          && (forall v :: v in r.waiting ==> r.waiting[v] == q.waiting[v])
          && r.active == q.active + (q.waiting.Keys - r.waiting.Keys))
  }

  /** As many users are promoted as there are free slots, or every waiting
      user when fewer wait. */
  predicate PromotedCount(q: QueueState, r: QueueState, limit: int) {
    limit - |q.active| > 0 ==> |q.waiting.Keys - r.waiting.Keys| == Min(limit - |q.active|, |q.waiting|)
  }

  /** Every user who left the waiting queue came before every user still in it. */
  predicate PromotedInOrder(q: QueueState, r: QueueState) {
    forall u, v :: u in q.waiting && u !in r.waiting && v in q.waiting && v in r.waiting ==> Before(q.waiting, u, v)
  }

  /** What one tick does to one OPEN concert's queue. */
  predicate Promoted(q: QueueState, r: QueueState, limit: int) {
    PromotedMembers(q, r, limit) && PromotedCount(q, r, limit) && PromotedInOrder(q, r)
  }

  /** One whole tick: concerts untouched in the database, every OPEN concert
      promoted, every other concert's queue left alone. */
  ghost predicate TickSpec(w: World, r: World, limit: int) {
    && r.concerts == w.concerts
    && (forall id :: id in OpenConcertIds(w) ==> Promoted(QueueOf(w, id), QueueOf(r, id), limit))
    && (forall id :: id !in OpenConcertIds(w) ==> QueueOf(r, id) == QueueOf(w, id))
  }

  /** Promotion for one concert: pop up to the free slots, then add each
      popped user to the active set. */
  method PromoteConcert(q: QueueState, limit: int) returns (r: QueueState)
    ensures Promoted(q, r, limit)
  {
    var slots := limit - GetActiveSize(q);
    if slots <= 0 {
      return q;
    }
    var popped, q1 := PopMinFromWaitingQueue(q, slots);
    r := q1;
    var rest := popped;
    while rest != {}
      invariant rest <= popped
      invariant r == q1.(active := q1.active + (popped - rest))
      decreases rest
    {
      var u :| u in rest;
      GrowByOne(q1.active, popped, rest, u);
      r := AddToActiveQueue(r, u);
      rest := rest - {u};
    }
    PromotedFromPop(q, popped, r, limit);
  }

  /** A pop of the right size, followed by adding the popped users to the
      active set, is a promotion. */
  lemma PromotedFromPop(q: QueueState, popped: set<UserId>, r: QueueState, limit: int)
    requires limit - |q.active| > 0
    requires |popped| == Min(limit - |q.active|, |q.waiting|)
    requires popped <= q.waiting.Keys
    requires r.waiting == Without(q.waiting, popped)
    requires r.active == q.active + popped && r.soldOut == q.soldOut
    requires forall u, v :: u in popped && v in r.waiting ==> Before(q.waiting, u, v)
    ensures Promoted(q, r, limit)
  {
    assert r.waiting.Keys == q.waiting.Keys - popped;
    TakeBack(q.waiting.Keys, popped);
    assert q.waiting.Keys - r.waiting.Keys == popped;
    assert PromotedMembers(q, r, limit);
    assert PromotedCount(q, r, limit);
    assert PromotedInOrder(q, r);
  }

  /** Set algebra for the pop: what is left out of what was left is what was taken. */
  lemma TakeBack<T>(w: set<T>, p: set<T>)
    requires p <= w
    ensures w - (w - p) == p
  {
  }

  /** Set algebra for the add loop: one more popped user becomes active. */
  lemma GrowByOne<T>(base: set<T>, popped: set<T>, rest: set<T>, u: T)
    requires u in rest && rest <= popped
    ensures base + (popped - rest) + {u} == base + (popped - (rest - {u}))
  {
  }

  /** Set algebra for a promotion: moving the users `w - w'` from `w` into
      `a` keeps the union, and keeps the two sides apart if they were. */
  lemma MoveBetween<T>(w: set<T>, a: set<T>, w': set<T>, a': set<T>)
    requires w' <= w && a' == a + (w - w')
    ensures w' + a' == w + a
    ensures forall u :: u in w && u !in w' ==> u in a'
    ensures w !! a ==> w' !! a'
  {
  }

  /** Part-way through a tick: the concerts in `open` but no longer in
      `todo` are promoted, and every other queue is still as it was. */
  ghost predicate TickSoFar(w: World, r: World, open: set<Long>, todo: set<Long>, limit: int) {
    && r.concerts == w.concerts
    && (forall id :: id in open && id !in todo ==> Promoted(QueueOf(w, id), QueueOf(r, id), limit))
    && (forall id :: id !in open || id in todo ==> QueueOf(r, id) == QueueOf(w, id))
  }

  /** Promoting one more pending concert advances the tick by one concert. */
  lemma TickSoFarStep(w: World, r: World, open: set<Long>, todo: set<Long>, id: Long, q: QueueState, limit: int)
    requires TickSoFar(w, r, open, todo, limit)
    requires id in todo && todo <= open
    requires Promoted(QueueOf(r, id), q, limit)
    ensures TickSoFar(w, WithQueue(r, id, q), open, todo - {id}, limit)
  {
    var r' := WithQueue(r, id, q);
    forall other | other in open && other !in todo - {id}
      ensures Promoted(QueueOf(w, other), QueueOf(r', other), limit)
    {
      if other != id {
        assert QueueOf(r', other) == QueueOf(r, other);
      }
    }
  }

  /** `scheduleAllowUsers`. */
  method ScheduleAllowUsers(w: World, limit: int) returns (r: World)
    ensures TickSpec(w, r, limit)
    ensures OpenConcertIds(w) == {} ==> r == w
  {
    var open := OpenConcertIds(w);
    if open == {} {
      return w;
    }
    r := w;
    var todo := open;
    while todo != {}
      invariant todo <= open
      invariant TickSoFar(w, r, open, todo, limit)
      decreases todo
    {
      var id :| id in todo;
      var q := PromoteConcert(QueueOf(r, id), limit);
      TickSoFarStep(w, r, open, todo, id, q, limit);
      r := WithQueue(r, id, q);
      todo := todo - {id};
    }
  }

  lemma UnionBound<T>(a: set<T>, b: set<T>)
    ensures |a + b| <= |a| + |b|
  {
    assert |a + b| + |a * b| == |a| + |b|;
  }

  /** A tick never lets the active set outgrow the limit. */
  lemma PromotedKeepsLimit(q: QueueState, r: QueueState, limit: int)
    requires PromotedMembers(q, r, limit) && PromotedCount(q, r, limit)
    requires |q.active| <= limit
    ensures |r.active| <= limit
  {
    var slots := limit - |q.active|;
    if slots > 0 {
      UnionBound(q.active, q.waiting.Keys - r.waiting.Keys);
    }
  }

  /** Promoted users move from waiting to active; nobody appears or vanishes,
      and a queue whose waiting and active users were apart stays so. */
  lemma PromotedMovesUsers(q: QueueState, r: QueueState, limit: int)
    requires PromotedMembers(q, r, limit)
    ensures forall u :: u in q.waiting && u !in r.waiting ==> u in r.active
    ensures r.waiting.Keys + r.active == q.waiting.Keys + q.active
    ensures q.waiting.Keys !! q.active ==> r.waiting.Keys !! r.active
  {
    if limit - |q.active| > 0 {
      MoveBetween(q.waiting.Keys, q.active, r.waiting.Keys, r.active);
    } else {
      assert r == q;
    }
  }

  /** The whole tick keeps every concert's active set within the limit. */
  lemma TickKeepsLimit(w: World, r: World, limit: int)
    requires TickSpec(w, r, limit)
    requires forall id :: |QueueOf(w, id).active| <= limit
    ensures forall id :: |QueueOf(r, id).active| <= limit
  {
    forall id
      ensures |QueueOf(r, id).active| <= limit
    {
      if id in OpenConcertIds(w) {
        PromotedKeepsLimit(QueueOf(w, id), QueueOf(r, id), limit);
      }
    }
  }
}
