/** Safety of the admission pipeline over arbitrary sequences of operations.

    Every public operation is one atomic step of `Next`; the tick is given by
    its specification `TickSpec`, which `Scheduler.ScheduleAllowUsers`
    implements. Treating each call as atomic is exactly the assumption the
    distributed lock provides for the issuance critical section; registration
    and the tick take no lock in the code, so the bound on the active set
    holds only under this one-step-per-operation reading. */
module Safety {
  import opened Wrappers
  import opened Ids
  import opened Errors
  import opened Concerts
  import opened ConcertQueue
  import opened LockTemplate
  import opened Admission
  import opened Scheduler
  import opened TicketService

  datatype Op =
    | Register(id: Long, user: UserId, now: nat, rank: Option<nat>)
    | Issue(id: Long, user: UserId, rank: Option<nat>, env: LockEnv, now: nat)
    | IssueAop(id: Long, user: UserId, env: LockEnv, now: nat)
    | IssueTemplate(id: Long, user: UserId, env: LockEnv, now: nat)
      /** The active key's ten-minute expiry lapses and the whole set vanishes. */
    | ExpireActive(id: Long)
    | Tick

  /** The state after a call: the new world on success, the old one on failure. */
  function After<T>(r: Result<(T, World), Failure>, w: World): World {
    if r.Success? then r.value.1 else w
  }

  ghost predicate Next(w: World, op: Op, w': World, limit: int) {
    match op
    case Register(id, user, now, rank) =>
      Fresh(w, user) && w' == After(RegisterQueue(w, id, limit, user, now, rank), w)
    case Issue(id, user, rank, env, now) =>
      w' == After(IssueTicket(w, id, user, rank, env, now).result, w)
    case IssueAop(id, user, env, now) =>
      w' == After(IssueTicketLockAop(w, id, user, env, now).result, w)
    case IssueTemplate(id, user, env, now) =>
      w' == After(IssueTicketLockTemplate(w, id, user, env, now).result, w)
    case ExpireActive(id) =>
      w' == WithQueue(w, id, QueueOf(w, id).(active := {}))
    case Tick =>
      TickSpec(w, w', limit)
  }

  /** A stored concert: its tickets are its own, distinct per user, and never
      more than its seats. */
  ghost predicate ConcertOk(id: Long, c: Concert) {
    && c.id == id
    && |c.tickets| <= c.maxSeats
    && UniqueHolders(c)
    && forall i :: 0 <= i < |c.tickets| ==> c.tickets[i].concertId == id
  }

  /** A concert's queue: the active set within the limit, nobody both waiting
      and active, and a set sold-out flag only on a full SOLD_OUT concert
      whose queues are empty. */
  ghost predicate QueueOk(w: World, id: Long, limit: int) {
    var q := QueueOf(w, id);
    && |q.active| <= limit
    && q.waiting.Keys !! q.active
    && (q.soldOut ==>
          && q.waiting == map[] && q.active == {}
          && id in w.concerts && w.concerts[id].status == SoldOut
          && |w.concerts[id].tickets| >= w.concerts[id].maxSeats)
  }

  ghost predicate Inv(w: World, limit: int) {
    && (forall id :: id in w.concerts ==> ConcertOk(id, w.concerts[id]))
    && (forall id :: QueueOk(w, id, limit))
  }

  /** Appending one ticket for a user who holds none keeps a concert sound. */
  lemma AppendKeepsConcertOk(id: Long, c: Concert, user: UserId, now: nat)
    requires ConcertOk(id, c)
    requires |c.tickets| < c.maxSeats && !HasTicketFor(c, user)
    ensures ConcertOk(id, c.(tickets := c.tickets + [Ticket(id, user, now)]))
  {
    var c' := c.(tickets := c.tickets + [Ticket(id, user, now)]);
    forall i, j | 0 <= i < j < |c'.tickets|
      ensures c'.tickets[i].userId != c'.tickets[j].userId
    {
      if j == |c.tickets| {
        assert c'.tickets[i] == c.tickets[i];
      }
    }
  }

  lemma IssuePreservesInv(w: World, id: Long, user: UserId, now: nat, limit: int)
    requires Inv(w, limit)
    ensures Inv(After(ReserveForActiveUser(w, id, user, now), w), limit)
  {
    var r := ReserveForActiveUser(w, id, user, now);
    if r.Success? {
      var w' := r.value.1;
      var c := w.concerts[id];
      AppendKeepsConcertOk(id, c, user, now);
      assert ConcertOk(id, w'.concerts[id]);
      forall other
        ensures QueueOk(w', other, limit)
      {
        if other != id {
          assert QueueOf(w', other) == QueueOf(w, other);
          assert QueueOk(w, other, limit);
        } else {
          assert QueueOk(w, id, limit);
        }
      }
    }
  }

  lemma UnqueuedPreservesInv(w: World, id: Long, user: UserId, now: nat, limit: int)
    requires Inv(w, limit)
    ensures Inv(After(ReserveUnqueued(w, id, user, now), w), limit)
  {
    var r := ReserveUnqueued(w, id, user, now);
    if r.Success? {
      var w' := r.value.1;
      AppendKeepsConcertOk(id, w.concerts[id], user, now);
      forall other
        ensures QueueOk(w', other, limit)
      {
        assert QueueOf(w', other) == QueueOf(w, other);
        assert QueueOk(w, other, limit);
      }
    }
  }

  lemma RegisterPreservesInv(w: World, id: Long, user: UserId, now: nat, rank: Option<nat>, limit: int)
    requires Inv(w, limit) && Fresh(w, user)
    ensures Inv(After(RegisterQueue(w, id, limit, user, now, rank), w), limit)
  {
    var r := RegisterQueue(w, id, limit, user, now, rank);
    if r.Success? {
      var w' := r.value.1;
      assert user !in QueueOf(w, id).waiting && user !in QueueOf(w, id).active;
      forall other
        ensures QueueOk(w', other, limit)
      {
        assert QueueOk(w, other, limit);
      }
    }
  }

  lemma TickPreservesInv(w: World, w': World, limit: int)
    requires Inv(w, limit) && TickSpec(w, w', limit)
    ensures Inv(w', limit)
  {
    forall id
      ensures QueueOk(w', id, limit)
    {
      assert QueueOk(w, id, limit);
      if id in OpenConcertIds(w) {
        PromotedKeepsLimit(QueueOf(w, id), QueueOf(w', id), limit);
        PromotedMovesUsers(QueueOf(w, id), QueueOf(w', id), limit);
      }
    }
  }

  lemma IssueStepKeepsInv(w: World, id: Long, user: UserId, rank: Option<nat>, env: LockEnv, now: nat, limit: int)
    requires Inv(w, limit)
    ensures Inv(After(IssueTicket(w, id, user, rank, env, now).result, w), limit)
  {
    IssuePreservesInv(w, id, user, now, limit);
  }

  lemma AopStepKeepsInv(w: World, id: Long, user: UserId, env: LockEnv, now: nat, limit: int)
    requires Inv(w, limit)
    ensures Inv(After(IssueTicketLockAop(w, id, user, env, now).result, w), limit)
  {
    UnqueuedPreservesInv(w, id, user, now, limit);
  }

  lemma TemplateStepKeepsInv(w: World, id: Long, user: UserId, env: LockEnv, now: nat, limit: int)
    requires Inv(w, limit)
    ensures Inv(After(IssueTicketLockTemplate(w, id, user, env, now).result, w), limit)
  {
    UnqueuedPreservesInv(w, id, user, now, limit);
  }

  /** The active key expiring empties one active set and keeps the invariant. */
  lemma ExpiryKeepsInv(w: World, id: Long, limit: int)
    requires Inv(w, limit)
    ensures Inv(WithQueue(w, id, QueueOf(w, id).(active := {})), limit)
  {
    var w' := WithQueue(w, id, QueueOf(w, id).(active := {}));
    forall other
      ensures QueueOk(w', other, limit)
    {
      assert QueueOk(w, other, limit);
    }
  }

  /** Every step keeps the invariant. */
  lemma NextPreservesInv(w: World, op: Op, w': World, limit: int)
    requires Inv(w, limit) && Next(w, op, w', limit)
    ensures Inv(w', limit)
  {
    match op
    case Register(id, user, now, rank) =>
      RegisterPreservesInv(w, id, user, now, rank, limit);
    case Issue(id, user, rank, env, now) =>
      IssueStepKeepsInv(w, id, user, rank, env, now, limit);
    case IssueAop(id, user, env, now) =>
      AopStepKeepsInv(w, id, user, env, now, limit);
    case IssueTemplate(id, user, env, now) =>
      TemplateStepKeepsInv(w, id, user, env, now, limit);
    case ExpireActive(id) =>
      ExpiryKeepsInv(w, id, limit);
    case Tick =>
      TickPreservesInv(w, w', limit);
  }

  /** A run: consecutive worlds linked by steps. */
  ghost predicate IsRun(ws: seq<World>, ops: seq<Op>, limit: int) {
    && |ws| == |ops| + 1
    && forall i :: 0 <= i < |ops| ==> Next(ws[i], ops[i], ws[i + 1], limit)
  }

  /** The capacity invariant: along any run from a sound world, no concert
      ever holds more tickets than seats, and the invariant holds throughout. */
  lemma {:induction false} RunKeepsCapacity(ws: seq<World>, ops: seq<Op>, limit: int)
    requires IsRun(ws, ops, limit) && Inv(ws[0], limit)
    ensures forall i :: 0 <= i < |ws| ==> Inv(ws[i], limit)
    ensures forall i, id :: 0 <= i < |ws| && id in ws[i].concerts ==>
              |ws[i].concerts[id].tickets| <= ws[i].concerts[id].maxSeats
    decreases |ops|
  {
    if |ops| > 0 {
      var n := |ops|;
      assert IsRun(ws[..n], ops[..n - 1], limit) by {
        forall i | 0 <= i < n - 1
          ensures Next(ws[..n][i], ops[..n - 1][i], ws[..n][i + 1], limit)
        {
          assert Next(ws[i], ops[i], ws[i + 1], limit);
        }
      }
      RunKeepsCapacity(ws[..n], ops[..n - 1], limit);
      assert Inv(ws[n - 1], limit) by {
        assert ws[..n][n - 1] == ws[n - 1];
      }
      NextPreservesInv(ws[n - 1], ops[n - 1], ws[n], limit);
      forall i | 0 <= i < |ws|
        ensures Inv(ws[i], limit)
      {
        if i < n {
          assert ws[..n][i] == ws[i];
        }
      }
    }
    forall i, id | 0 <= i < |ws| && id in ws[i].concerts
      ensures |ws[i].concerts[id].tickets| <= ws[i].concerts[id].maxSeats
    {
      assert Inv(ws[i], limit);
      assert ConcertOk(id, ws[i].concerts[id]);
    }
  }

  /** Nothing is lost between two worlds: every sold-out flag is still set
      and every concert still holds all its tickets, in order. */
  ghost predicate Monotone(w: World, w': World) {
    && (forall c :: QueueOf(w, c).soldOut ==> QueueOf(w', c).soldOut)
    && (forall c :: c in w.concerts ==> c in w'.concerts && w.concerts[c].tickets <= w'.concerts[c].tickets)
  }

  lemma RegisterMonotone(w: World, id: Long, limit: int, user: UserId, now: nat, rank: Option<nat>)
    requires Fresh(w, user)
    ensures Monotone(w, After(RegisterQueue(w, id, limit, user, now, rank), w))
  {
    var r := RegisterQueue(w, id, limit, user, now, rank);
    if r.Success? {
      var w' := r.value.1;
      forall c | QueueOf(w, c).soldOut
        ensures QueueOf(w', c).soldOut
      {
        if c != id {
          assert QueueOf(w', c) == QueueOf(w, c);
        }
      }
    }
  }

  lemma IssueMonotone(w: World, id: Long, user: UserId, rank: Option<nat>, env: LockEnv, now: nat)
    ensures Monotone(w, After(IssueTicket(w, id, user, rank, env, now).result, w))
  {
    var r := IssueTicket(w, id, user, rank, env, now).result;
    if r.Success? {
      var w' := r.value.1;
      forall c | QueueOf(w, c).soldOut
        ensures QueueOf(w', c).soldOut
      {
        if c != id {
          assert QueueOf(w', c) == QueueOf(w, c);
        }
      }
      forall c | c in w.concerts
        ensures c in w'.concerts && w.concerts[c].tickets <= w'.concerts[c].tickets
      {
        if c != id {
          assert w'.concerts[c] == w.concerts[c];
        }
      }
    }
  }

  lemma UnqueuedMonotone(w: World, id: Long, user: UserId, now: nat)
    ensures Monotone(w, After(ReserveUnqueued(w, id, user, now), w))
  {
    var r := ReserveUnqueued(w, id, user, now);
    if r.Success? {
      var w' := r.value.1;
      assert w'.queues == w.queues;
      forall c | c in w.concerts
        ensures c in w'.concerts && w.concerts[c].tickets <= w'.concerts[c].tickets
      {
        if c != id {
          assert w'.concerts[c] == w.concerts[c];
        }
      }
    }
  }

  lemma TickMonotone(w: World, w': World, limit: int)
    requires TickSpec(w, w', limit)
    ensures Monotone(w, w')
  {
    forall c | QueueOf(w, c).soldOut
      ensures QueueOf(w', c).soldOut
    {
      if c in OpenConcertIds(w) {
        assert Promoted(QueueOf(w, c), QueueOf(w', c), limit);
      }
    }
  }

  lemma AopMonotone(w: World, id: Long, user: UserId, env: LockEnv, now: nat)
    ensures Monotone(w, After(IssueTicketLockAop(w, id, user, env, now).result, w))
  {
    UnqueuedMonotone(w, id, user, now);
  }

  lemma TemplateMonotone(w: World, id: Long, user: UserId, env: LockEnv, now: nat)
    ensures Monotone(w, After(IssueTicketLockTemplate(w, id, user, env, now).result, w))
  {
    UnqueuedMonotone(w, id, user, now);
  }

  /** No step clears a sold-out flag or removes a ticket. */
  lemma StepMonotone(w: World, op: Op, w': World, limit: int)
    requires Next(w, op, w', limit)
    ensures Monotone(w, w')
  {
    match op
    case Register(id, user, now, rank) =>
      RegisterMonotone(w, id, limit, user, now, rank);
    case Issue(id, user, rank, env, now) =>
      IssueMonotone(w, id, user, rank, env, now);
    case IssueAop(id, user, env, now) =>
      AopMonotone(w, id, user, env, now);
    case IssueTemplate(id, user, env, now) =>
      TemplateMonotone(w, id, user, env, now);
    case ExpireActive(id) =>
      assert Monotone(w, w');
    case Tick =>
      TickMonotone(w, w', limit);
  }

  /** Sold-out is one-way along any run. */
  lemma {:induction false} SoldOutStaysSoldOut(ws: seq<World>, ops: seq<Op>, limit: int, i: nat, j: nat, id: Long)
    requires IsRun(ws, ops, limit)
    requires i <= j < |ws|
    requires QueueOf(ws[i], id).soldOut
    ensures QueueOf(ws[j], id).soldOut
    decreases j - i
  {
    if i < j {
      StepMonotone(ws[i], ops[i], ws[i + 1], limit);
      SoldOutStaysSoldOut(ws, ops, limit, i + 1, j, id);
    }
  }

  /** In a sound world, a sold-out concert refuses every entry point: no
      registration and no ticket, by any of the three issuing paths. */
  lemma SoldOutRefusesAll(w: World, id: Long, limit: int, user: UserId, now: nat, rank: Option<nat>, env: LockEnv)
    requires Inv(w, limit) && QueueOf(w, id).soldOut
    ensures Fresh(w, user) ==> RegisterQueue(w, id, limit, user, now, rank) == Failure(Business(TicketMaxReserved))
    ensures IssueTicket(w, id, user, rank, env, now).result == Failure(Business(TicketMaxReserved))
    ensures IssueTicketLockAop(w, id, user, env, now).result.Failure?
    ensures IssueTicketLockTemplate(w, id, user, env, now).result.Failure?
  {
    assert QueueOk(w, id, limit);
  }

  /** One seat, two admitted users: the first issue closes the concert and
      the second is refused as sold out. */
  lemma OneSeatTwoUsers(p1: UserId, p2: UserId, env: LockEnv, now: nat)
    requires p1 != p2 && env.acquisition == Granted
    ensures var id: Long := 1;
            var w := World(map[id := Concert(id, 1, Open, [])], map[id := QueueState(map[], {p1, p2}, false)]);
            var first := IssueTicket(w, id, p1, None, env, now);
            && first.result.Success?
            && var w1 := first.result.value.1;
            && w1.concerts[id].status == SoldOut
            && |w1.concerts[id].tickets| == 1
            && IssueTicket(w1, id, p2, None, env, now).result == Failure(Business(TicketMaxReserved))
  {
    var id: Long := 1;
    var w := World(map[id := Concert(id, 1, Open, [])], map[id := QueueState(map[], {p1, p2}, false)]);
    var first := IssueTicket(w, id, p1, None, env, now);
    assert !HasTicketFor(w.concerts[id], p1);
    assert first.result == ReserveForActiveUser(w, id, p1, now);
  }
}
