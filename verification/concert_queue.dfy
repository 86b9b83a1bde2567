/** The per-concert queue state kept in the coordination store: a sorted set
    of waiting users scored by arrival time, a plain set of active users, and
    a sold-out flag. A missing key reads as an empty collection (or an unset
    flag), so `Empty` is the state of a concert the store knows nothing about.
    Each operation is one store command and is modelled as one pure step. */
module ConcertQueue {
  import opened Ids

  datatype QueueState = QueueState(waiting: map<UserId, nat>, active: set<UserId>, soldOut: bool)

  const Empty: QueueState := QueueState(map[], {}, false)

  /** ZADD NX: insert with the given score only if the user is absent. */
  function AddToWaitingQueue(q: QueueState, user: UserId, score: nat): (r: (bool, QueueState))
    ensures r.0 <==> user !in q.waiting
    ensures r.1.waiting.Keys == q.waiting.Keys + {user}
    ensures r.1.waiting[user] == (if user in q.waiting then q.waiting[user] else score)
    ensures forall v :: v in q.waiting ==> r.1.waiting[v] == q.waiting[v]
    ensures r.1.active == q.active && r.1.soldOut == q.soldOut
  {
    if user in q.waiting then (false, q)
    else (true, q.(waiting := q.waiting[user := score]))
  }

  /** ZCARD on the waiting key. */
  function GetWaitingSize(q: QueueState): (n: nat)
    ensures n == 0 <==> q.waiting == map[]
  {
    |q.waiting|
  }

  /** DEL on the waiting key; it reports whether the key existed, and a
      sorted set exists only while it has members. */
  function ClearWaitingQueue(q: QueueState): (r: (bool, QueueState))
    ensures r.0 <==> |q.waiting| > 0
    ensures r.1.waiting == map[] && r.1.active == q.active && r.1.soldOut == q.soldOut
  {
    (|q.waiting| > 0, q.(waiting := map[]))
  }

  /** SADD on the active key (the ten-minute expiry it also sets is modelled
      separately as a step that may empty the whole active set). */
  function AddToActiveQueue(q: QueueState, user: UserId): (r: QueueState)
    ensures user in r.active
    ensures forall v :: v != user ==> (v in r.active <==> v in q.active)
    ensures r.waiting == q.waiting && r.soldOut == q.soldOut
  {
    q.(active := q.active + {user})
  }

  /** SREM on the active key; it reports how many members were removed. */
  function RemoveActiveQueue(q: QueueState, user: UserId): (r: (nat, QueueState))
    ensures r.0 == (if user in q.active then 1 else 0)
    ensures user !in r.1.active
    ensures forall v :: v != user ==> (v in r.1.active <==> v in q.active)
    ensures r.1.waiting == q.waiting && r.1.soldOut == q.soldOut
  {
    (if user in q.active then 1 else 0, q.(active := q.active - {user}))
  }

  /** DEL on the active key. */
  function ClearActiveQueue(q: QueueState): (r: (bool, QueueState))
    ensures r.0 <==> |q.active| > 0
    ensures r.1.active == {} && r.1.waiting == q.waiting && r.1.soldOut == q.soldOut
  {
    (|q.active| > 0, q.(active := {}))
  }

  /** SCARD on the active key. */
  function GetActiveSize(q: QueueState): (n: nat)
    ensures n == 0 <==> q.active == {}
  {
    |q.active|
  }

  /** SISMEMBER on the active key. */
  predicate IsActive(q: QueueState, user: UserId)
    ensures IsActive(q, user) ==> GetActiveSize(q) >= 1
  {
    user in q.active
  }

  /** SET on the sold-out key; nothing in the repository ever deletes it. */
  function SetSoldOut(q: QueueState): (r: QueueState)
    ensures r.soldOut
    ensures r.waiting == q.waiting && r.active == q.active
  {
    q.(soldOut := true)
  }

  /** EXISTS on the sold-out key. */
  predicate IsSoldOut(q: QueueState) {
    q.soldOut
  }

  /** Adding an absent user to the waiting queue twice is the same as adding
      once: the second call reports false and changes nothing. */
  lemma EnqueueIdempotent(q: QueueState, user: UserId, s1: nat, s2: nat)
    ensures var (first, q1) := AddToWaitingQueue(q, user, s1);
            var (second, q2) := AddToWaitingQueue(q1, user, s2);
            && !second && q2 == q1
            && GetWaitingSize(q1) == GetWaitingSize(q) + (if first then 1 else 0)
  {
    var (first, q1) := AddToWaitingQueue(q, user, s1);
    if first {
      assert q1.waiting.Keys == q.waiting.Keys + {user};
    }
  }

  /** Re-adding an active member changes nothing; a new member grows the
      active size by one and is reported active. */
  lemma AddActiveQueries(q: QueueState, user: UserId)
    ensures IsActive(AddToActiveQueue(q, user), user)
    ensures IsActive(q, user) ==> AddToActiveQueue(q, user) == q
    ensures GetActiveSize(AddToActiveQueue(q, user)) == GetActiveSize(q) + (if IsActive(q, user) then 0 else 1)
  {
  }

  /** Removing a user just added to the active set restores the state. */
  lemma AddThenRemoveActive(q: QueueState, user: UserId)
    requires !IsActive(q, user)
    ensures RemoveActiveQueue(AddToActiveQueue(q, user), user) == (1, q)
  {
    assert (q.active + {user}) - {user} == q.active;
  }

  /** The waiting size read after each command: an insert of a new member
      adds one, a clear empties, and the active-set commands leave it alone. */
  lemma WaitingSizeQuery(q: QueueState, user: UserId, score: nat)
    ensures GetWaitingSize(Empty) == 0
    ensures GetWaitingSize(AddToWaitingQueue(q, user, score).1) == GetWaitingSize(q) + (if user in q.waiting then 0 else 1)
    ensures GetWaitingSize(ClearWaitingQueue(q).1) == 0
    ensures GetWaitingSize(AddToActiveQueue(q, user)) == GetWaitingSize(q)
    ensures GetWaitingSize(RemoveActiveQueue(q, user).1) == GetWaitingSize(q)
    ensures GetWaitingSize(ClearActiveQueue(q).1) == GetWaitingSize(q)
    ensures GetWaitingSize(SetSoldOut(q)) == GetWaitingSize(q)
  {
    if user !in q.waiting {
      assert AddToWaitingQueue(q, user, score).1.waiting.Keys == q.waiting.Keys + {user};
    }
  }

  /** The active size read after each command: adding a new member adds one,
      removing takes off what the removal reported, a clear empties. */
  lemma ActiveSizeQuery(q: QueueState, user: UserId, score: nat)
    ensures GetActiveSize(Empty) == 0
    ensures GetActiveSize(AddToActiveQueue(q, user)) == GetActiveSize(q) + (if user in q.active then 0 else 1)
    ensures GetActiveSize(RemoveActiveQueue(q, user).1) == GetActiveSize(q) - RemoveActiveQueue(q, user).0
    ensures GetActiveSize(ClearActiveQueue(q).1) == 0
    ensures GetActiveSize(AddToWaitingQueue(q, user, score).1) == GetActiveSize(q)
    ensures GetActiveSize(ClearWaitingQueue(q).1) == GetActiveSize(q)
    ensures GetActiveSize(SetSoldOut(q)) == GetActiveSize(q)
  {
    if user in q.active {
      assert AddToActiveQueue(q, user).active == q.active;
      assert |q.active - {user}| == |q.active| - 1;
    } else {
      assert |q.active + {user}| == |q.active| + 1;
      assert RemoveActiveQueue(q, user).1.active == q.active;
    }
  }

  /** Membership read after each command: only the active-set commands move
      it, and each moves only the user it names. */
  lemma ActiveMembershipQuery(q: QueueState, user: UserId, other: UserId, score: nat)
    ensures !IsActive(Empty, other)
    ensures IsActive(AddToActiveQueue(q, user), other) <==> other == user || IsActive(q, other)
    ensures IsActive(RemoveActiveQueue(q, user).1, other) <==> other != user && IsActive(q, other)
    ensures !IsActive(ClearActiveQueue(q).1, other)
    ensures IsActive(AddToWaitingQueue(q, user, score).1, other) <==> IsActive(q, other)
    ensures IsActive(ClearWaitingQueue(q).1, other) <==> IsActive(q, other)
    ensures IsActive(SetSoldOut(q), other) <==> IsActive(q, other)
  {
  }

  /** The sold-out query: unset for an unknown concert, set by `SetSoldOut`,
      and left as it was by every other command. */
  lemma SoldOutQuery(q: QueueState, user: UserId, score: nat)
    ensures !IsSoldOut(Empty)
    ensures IsSoldOut(SetSoldOut(q))
    ensures IsSoldOut(AddToWaitingQueue(q, user, score).1) == IsSoldOut(q)
    ensures IsSoldOut(ClearWaitingQueue(q).1) == IsSoldOut(q)
    ensures IsSoldOut(AddToActiveQueue(q, user)) == IsSoldOut(q)
    ensures IsSoldOut(RemoveActiveQueue(q, user).1) == IsSoldOut(q)
    ensures IsSoldOut(ClearActiveQueue(q).1) == IsSoldOut(q)
  {
  }

  function Min(a: int, b: int): int {
    if a < b then a else b
  }

  /** Promotion order: earlier score first, ties broken by the member itself,
      as the store orders members of equal score. */
  predicate Before(w: map<UserId, nat>, u: UserId, v: UserId)
    requires u in w && v in w
  {
    w[u] < w[v] || (w[u] == w[v] && u <= v)
  }

  /** The waiting map without the given members. */
  function Without(w: map<UserId, nat>, gone: set<UserId>): (r: map<UserId, nat>)
    ensures r.Keys == w.Keys - gone
    ensures forall v :: v in r ==> r[v] == w[v]
  {
    map v | v in w && v !in gone :: w[v]
  }

  /** The first waiting member in promotion order. */
  method MinEntry(w: map<UserId, nat>) returns (m: UserId)
    requires |w| > 0
    ensures m in w
    ensures forall v :: v in w ==> Before(w, m, v)
  {
    var keys := w.Keys;
    m :| m in keys;
    var rest := keys - {m};
    while rest != {}
      invariant rest <= keys && m in keys && m !in rest
      invariant forall v :: v in keys && v !in rest ==> Before(w, m, v)
      decreases rest
    {
      var v :| v in rest;
      if !Before(w, m, v) {
        m := v;
      }
      rest := rest - {v};
    }
  }

  /** Part-way through a pop: `popped` has left the waiting map, `rest` is
      the remainder with its scores, and everything popped precedes
      everything remaining. */
  ghost predicate PopSoFar(w: map<UserId, nat>, popped: set<UserId>, rest: map<UserId, nat>) {
    && popped <= w.Keys
    && rest.Keys == w.Keys - popped
    && (forall v :: v in rest ==> rest[v] == w[v])
    && (forall u, v :: u in popped && v in rest ==> Before(w, u, v))
  }

  /** Popping the first remaining member advances the pop by one. */
  lemma PopStep(w: map<UserId, nat>, popped: set<UserId>, rest: map<UserId, nat>, m: UserId)
    requires PopSoFar(w, popped, rest)
    requires m in rest && forall v :: v in rest ==> Before(rest, m, v)
    ensures PopSoFar(w, popped + {m}, rest - {m})
    ensures |popped + {m}| == |popped| + 1 && |(rest - {m}).Keys| == |rest.Keys| - 1
  {
    assert m !in popped;
    assert (rest - {m}).Keys == rest.Keys - {m};
    forall u, v | u in popped + {m} && v in rest - {m}
      ensures Before(w, u, v)
    {
      if u == m {
        assert Before(rest, m, v);
      }
    }
  }

  lemma PopSoFarIsWithout(w: map<UserId, nat>, popped: set<UserId>, rest: map<UserId, nat>)
    requires PopSoFar(w, popped, rest)
    ensures rest == Without(w, popped)
  {
  }

  /** ZPOPMIN with a count: removes and returns the `count` first members in
      promotion order, or all of them when fewer are waiting. */
  method PopMinFromWaitingQueue(q: QueueState, count: nat) returns (popped: set<UserId>, r: QueueState)
    ensures |popped| == Min(count, |q.waiting|)
    ensures popped <= q.waiting.Keys
    ensures r.waiting == Without(q.waiting, popped)
    ensures r.active == q.active && r.soldOut == q.soldOut
    ensures forall u, v :: u in popped && v in r.waiting ==> Before(q.waiting, u, v)
  {
    var target := Min(count, |q.waiting|);
    var rest := q.waiting;
    popped := {};
    while |popped| < target
      invariant PopSoFar(q.waiting, popped, rest)
      invariant |rest.Keys| == |q.waiting.Keys| - |popped|
      invariant |popped| <= target
      decreases target - |popped|
    {
      var m := MinEntry(rest);
      PopStep(q.waiting, popped, rest, m);
      popped := popped + {m};
      rest := rest - {m};
    }
    PopSoFarIsWithout(q.waiting, popped, rest);
    r := q.(waiting := rest);
  }
}
