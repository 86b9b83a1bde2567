/** The ticket service: queue registration and the three ticket-issuing
    entry points. Each call is one atomic transition of the `World`; the
    critical section under the concert lock is one step, which is what the
    lock is for and what the model assumes rather than proves.

    Inputs the code draws from its surroundings are parameters: the fresh
    user id of `UUID.randomUUID()`, the clock reading used as a score or an
    issue time, the store's answer to the rank query, and the lock service's
    answers (`LockEnv`). */
module TicketService {
  import opened Wrappers
  import opened Ids
  import opened Errors
  import opened Concerts
  import opened ConcertQueue
  import opened QueueKeys
  import opened LockTemplate
  import opened Admission

  /** The queue token and the rank shown to the user. */
  datatype QueueTicket = QueueTicket(userId: UserId, rank: nat)

  datatype TicketResponse = TicketResponse(userId: UserId)

  /** A service result together with what the lock template did, if the call
      got as far as the lock. */
  datatype Served<T> = Served(result: Result<T, Failure>, lock: Option<LockTrace>)

  /** The rank shown to a queued user: the store's zero-based rank plus one,
      counting a missing answer as rank zero. */
  function DisplayRank(rank: Option<nat>): (shown: nat)
    ensures shown >= 1
    ensures rank.Some? ==> shown == rank.value + 1
    ensures rank.None? ==> shown == 1
  {
    rank.GetOr(0) + 1
  }

  /** `registerQueue`. The store's reply to the rank query on the active key
      is the parameter `rank`; the model does not say what it is. */
  function RegisterQueue(w: World, id: Long, limit: int, user: UserId, now: nat, rank: Option<nat>)
    : (r: Result<(QueueTicket, World), Failure>)
    requires Fresh(w, user)
    ensures QueueOf(w, id).soldOut ==> r == Failure(Business(TicketMaxReserved))
    ensures !QueueOf(w, id).soldOut ==> r.Success? && r.value.0.userId == user
    ensures r.Success? ==>
              var q := QueueOf(w, id);
              var (t, w') := r.value;
              var q' := QueueOf(w', id);
              && w'.concerts == w.concerts
              && (forall other :: other != id ==> QueueOf(w', other) == QueueOf(w, other))
              && q'.soldOut == q.soldOut
              && (t.rank == 0 <==> |q.waiting| == 0 && |q.active| < limit)
              && (t.rank == 0 ==> q'.active == q.active + {user} && q'.waiting == q.waiting)
              && (t.rank != 0 ==>
                    && t.rank == DisplayRank(rank)
                    && q'.active == q.active
                    && q'.waiting.Keys == q.waiting.Keys + {user}
                    && q'.waiting[user] == now
                    && forall v :: v in q.waiting ==> q'.waiting[v] == q.waiting[v])
  {
    var q := QueueOf(w, id);
    if IsSoldOut(q) then Failure(Business(TicketMaxReserved))
    else if GetWaitingSize(q) == 0 && GetActiveSize(q) < limit then
      Success((QueueTicket(user, 0), WithQueue(w, id, AddToActiveQueue(q, user))))
    else
      var (_, q') := AddToWaitingQueue(q, user, now);
      Success((QueueTicket(user, DisplayRank(rank)), WithQueue(w, id, q')))
  }

  /** The lock name of every issuance path passes validation. */
  lemma ConcertLockNameIsValid(id: Long)
    ensures GoodLockName(ConcertLockName(id))
  {
    RenderedIdShape(id);
    LongToStringLength(id);
    var s := ConcertLockName(id);
    forall i | 0 <= i < |s|
      ensures AllowedChar(s[i])
    {
      if i >= |LOCK_PREFIX| {
        assert s[i] == LongToString(id)[i - |LOCK_PREFIX|];
      }
    }
  }

  /** The critical section of `issueTicket`, run under the concert lock:
      re-read the concert, refuse a sold-out or full one, save the ticket,
      then either close the concert (status, flag, both queues) if the count
      reached the ceiling, or release the user's active slot. */
  function ReserveForActiveUser(w: World, id: Long, user: UserId, now: nat)
    : (r: Result<(TicketResponse, World), Failure>)
    ensures id !in w.concerts ==> r == Failure(Business(ConcertNotFound))
    ensures id in w.concerts && (w.concerts[id].status == SoldOut || !ValidateReservation(w.concerts[id])) ==>
              r == Failure(Business(TicketMaxReserved))
    ensures id in w.concerts && w.concerts[id].status != SoldOut && ValidateReservation(w.concerts[id]) && HasTicketFor(w.concerts[id], user) ==>
              r == Failure(ConstraintViolation)
    ensures r.Failure? <==>
              id !in w.concerts || w.concerts[id].status == SoldOut
              || !ValidateReservation(w.concerts[id]) || HasTicketFor(w.concerts[id], user)
    ensures r.Success? ==>
              var c := w.concerts[id];
              var (resp, w') := r.value;
              var q := QueueOf(w, id);
              var q' := QueueOf(w', id);
              && resp.userId == user
              && w'.concerts.Keys == w.concerts.Keys
              && (forall other :: other in w.concerts && other != id ==> w'.concerts[other] == w.concerts[other])
              && (forall other :: other != id ==> QueueOf(w', other) == QueueOf(w, other))
              && var c' := w'.concerts[id];
              && c'.tickets == c.tickets + [Ticket(c.id, user, now)]
              && c'.id == c.id && c'.maxSeats == c.maxSeats
              && |c'.tickets| <= c.maxSeats
              && (|c'.tickets| >= c.maxSeats ==>
                    c'.status == SoldOut && q'.soldOut && q'.waiting == map[] && q'.active == {})
              && (|c'.tickets| < c.maxSeats ==>
                    c'.status == c.status && q'.active == q.active - {user}
                    && q'.waiting == q.waiting && q'.soldOut == q.soldOut)
  {
    if id !in w.concerts then Failure(Business(ConcertNotFound))
    else
      var c := w.concerts[id];
      if c.status == SoldOut || !ValidateReservation(c) then Failure(Business(TicketMaxReserved))
      else
        var saved := SaveNewTicket(c, user, now);
        if saved.Failure? then Failure(saved.error)
        else
          var (ticket, c1) := saved.value;
          var issued := |c1.tickets|;
          var q := QueueOf(w, id);
          if issued >= c.maxSeats then
            var (_, q1) := ClearWaitingQueue(SetSoldOut(q));
            var (_, q2) := ClearActiveQueue(q1);
            Success((TicketResponse(ticket.userId),
                     World(w.concerts[id := c1.(status := SoldOut)], w.queues[id := q2])))
          else
            var (_, q1) := RemoveActiveQueue(q, user);
            Success((TicketResponse(ticket.userId), World(w.concerts[id := c1], w.queues[id := q1])))
  }

  /** The lock parameters of `issueTicket`. */
  function IssueRequest(id: Long): LockRequest {
    DefaultRequest(ConcertLockName(id)).(waitTime := 5, leaseTime := 3)
  }

  /** The message of the default exception when the concert lock is busy. */
  function LockBusyMessage(id: Long): string {
    "Lock not available: " + ConcertLockName(id)
  }

  function ServedFrom<T>(run: LockRun<T>): (s: Served<T>)
    ensures s.result == run.result && s.lock == Some(run.trace)
  {
    Served(run.result, Some(run.trace))
  }

  /** `issueTicket`: the sold-out flag and the active-set gate are checked
      before any lock is requested; `rank` is the store's reply to the rank
      query used in the access-denied message. */
  function IssueTicket(w: World, id: Long, user: UserId, rank: Option<nat>, env: LockEnv, now: nat)
    : (s: Served<(TicketResponse, World)>)
    ensures QueueOf(w, id).soldOut ==> s == Served(Failure(Business(TicketMaxReserved)), None)
    ensures !QueueOf(w, id).soldOut && !IsActive(QueueOf(w, id), user) ==>
              s == Served(Failure(Business(AccessDenied(if rank.Some? then Some(rank.value + 1) else None))), None)
    ensures s.lock.Some? <==> !QueueOf(w, id).soldOut && IsActive(QueueOf(w, id), user)
    ensures s.lock.Some? ==>
              && s.lock.value.lock == Some(RLock(ConcertLockName(id), PlainLock))
              && s.lock.value.attempt == Some(TryLockLeased(5, 3, Seconds))
              && (s.lock.value.blockRan <==> env.acquisition == Granted)
    ensures s.lock.Some? && s.lock.value.blockRan ==> s.result == ReserveForActiveUser(w, id, user, now)
    ensures s.lock.Some? && env.acquisition == Refused ==>
              s.result == Failure(LockNotAvailable(LOCK_ACQUISITION_FAILED, LockBusyMessage(id)))
    ensures s.lock.Some? && env.acquisition == Interrupted ==> s.result == Failure(LockInterrupted)
    ensures s.result.Success? ==> s.lock.Some? && s.lock.value.blockRan
  {
    var q := QueueOf(w, id);
    if IsSoldOut(q) then Served(Failure(Business(TicketMaxReserved)), None)
    else if !IsActive(q, user) then
      Served(Failure(Business(AccessDenied(if rank.Some? then Some(rank.value + 1) else None))), None)
    else
      ConcertLockNameIsValid(id);
      ServedFrom(Execute(IssueRequest(id), env, () => ReserveForActiveUser(w, id, user, now)))
  }

  /** The body shared by `issueTicket_lockAop` and `issueTicket_lockTemplate`:
      no queue gate and no status check, a freshly generated user, and no
      queue or status update after saving. */
  function ReserveUnqueued(w: World, id: Long, user: UserId, now: nat)
    : (r: Result<(TicketResponse, World), Failure>)
    ensures id !in w.concerts ==> r == Failure(Business(ConcertNotFound))
    ensures id in w.concerts && !ValidateReservation(w.concerts[id]) ==> r == Failure(Business(TicketMaxReserved))
    ensures id in w.concerts && ValidateReservation(w.concerts[id]) && HasTicketFor(w.concerts[id], user) ==>
              r == Failure(ConstraintViolation)
    ensures r.Failure? <==>
              id !in w.concerts || !ValidateReservation(w.concerts[id]) || HasTicketFor(w.concerts[id], user)
    ensures r.Success? ==>
              var c := w.concerts[id];
              var (resp, w') := r.value;
              && resp.userId == user
              && w'.queues == w.queues
              && w'.concerts == w.concerts[id := c.(tickets := c.tickets + [Ticket(c.id, user, now)])]
              && |c.tickets| + 1 <= c.maxSeats
  {
    if id !in w.concerts then Failure(Business(ConcertNotFound))
    else
      var c := w.concerts[id];
      if !ValidateReservation(c) then Failure(Business(TicketMaxReserved))
      else
        var saved := SaveNewTicket(c, user, now);
        if saved.Failure? then Failure(saved.error)
        else
          var (ticket, c1) := saved.value;
          Success((TicketResponse(ticket.userId), w.(concerts := w.concerts[id := c1])))
  }

  /** The lock annotation: the key expression becomes a formatting function of
      the concert id; the remaining fields carry the annotation's defaults
      unless the use site overrides them. */
  datatype DistributedLockAnnotation = DistributedLockAnnotation(
    key: Long -> string,
    lockType: LockType,
    waitTime: int,
    leaseTime: int,
    timeUnit: TimeUnit,
    exceptionClass: ExceptionClass)

  /** The aspect's lock on issuance: key `concert:<id>`, no wait, a 3 s lease,
      and the annotation's defaults for the rest. */
  function LockAopAnnotation(): DistributedLockAnnotation {
    DistributedLockAnnotation(ConcertLockName, Reentrant, 0, 3, Seconds, DefaultExceptionClass)
  }

  /** The aspect: evaluate the key against the call's argument and hand every
      annotation field to `execute`. */
  function AspectRequest(a: DistributedLockAnnotation, id: Long): LockRequest {
    LockRequest(a.key(id), a.lockType, a.waitTime, a.leaseTime, a.timeUnit, a.exceptionClass)
  }

  /** The explicit template call with named arguments. */
  function TemplateRequest(id: Long): LockRequest {
    DefaultRequest(ConcertLockName(id)).(waitTime := 0, leaseTime := 3)
  }

  /** The single routine both lock styles go through. */
  function RunUnqueued(req: LockRequest, w: World, id: Long, user: UserId, env: LockEnv, now: nat)
    : (s: Served<(TicketResponse, World)>)
    ensures s.lock.Some?
    ensures s.lock.value.blockRan <==> GoodLockName(req.name) && env.acquisition == Granted
    ensures s.lock.value.blockRan ==> s.result == ReserveUnqueued(w, id, user, now)
    ensures !GoodLockName(req.name) ==>
              ValidateLockName(req.name).Some? && s.result == Failure(InvalidLockName(ValidateLockName(req.name).value))
    ensures GoodLockName(req.name) && env.acquisition == Refused ==>
              s.result == Failure(CreateException(req.exceptionClass, "Lock not available: " + req.name))
    ensures GoodLockName(req.name) && env.acquisition == Interrupted ==> s.result == Failure(LockInterrupted)
    ensures s.lock.value.release == Some(ReleaseOnExit(env)) || !GoodLockName(req.name)
    ensures s.result.Success? ==> s.lock.value.blockRan
  {
    ServedFrom(Execute(req, env, () => ReserveUnqueued(w, id, user, now)))
  }

  /** The aspect is ordered just ahead of the lowest precedence, so it wraps
      the `@Transactional` proxy: the transaction has ended by the time the
      lock's `finally` block runs, and the release is never deferred. */
  function AopEnv(env: LockEnv): (e: LockEnv)
    ensures e.acquisition == env.acquisition && e.heldAtExit == env.heldAtExit && e.unlockFails == env.unlockFails
    ensures !e.transactionActive
  {
    env.(transactionActive := false)
  }

  function IssueTicketLockAop(w: World, id: Long, user: UserId, env: LockEnv, now: nat)
    : (s: Served<(TicketResponse, World)>)
    ensures s.lock.Some? && (s.lock.value.blockRan <==> env.acquisition == Granted)
    ensures s.lock.value.blockRan ==> s.result == ReserveUnqueued(w, id, user, now)
    ensures env.acquisition == Refused ==> s.result == Failure(LockNotAvailable(LOCK_ACQUISITION_FAILED, LockBusyMessage(id)))
    ensures env.acquisition == Interrupted ==> s.result == Failure(LockInterrupted)
    ensures s.lock.value.release != Some(DeferredToCompletion)
    ensures s.result.Success? ==> s.result == ReserveUnqueued(w, id, user, now)
  {
    ConcertLockNameIsValid(id);
    RunUnqueued(AspectRequest(LockAopAnnotation(), id), w, id, user, AopEnv(env), now)
  }

  /** `executeWithTransaction` is not part of this model; whether a
      transaction is active when its lock is released is left to `env`. */
  function IssueTicketLockTemplate(w: World, id: Long, user: UserId, env: LockEnv, now: nat)
    : (s: Served<(TicketResponse, World)>)
    ensures s.lock.Some? && (s.lock.value.blockRan <==> env.acquisition == Granted)
    ensures s.lock.value.blockRan ==> s.result == ReserveUnqueued(w, id, user, now)
    ensures env.acquisition == Refused ==> s.result == Failure(LockNotAvailable(LOCK_ACQUISITION_FAILED, LockBusyMessage(id)))
    ensures env.acquisition == Interrupted ==> s.result == Failure(LockInterrupted)
    ensures s.lock.value.release == Some(ReleaseOnExit(env))
    ensures s.result.Success? ==> s.result == ReserveUnqueued(w, id, user, now)
  {
    ConcertLockNameIsValid(id);
    RunUnqueued(TemplateRequest(id), w, id, user, env, now)
  }

  /** The two lock styles build the same request (name `concert:<id>`,
      reentrant, wait 0, lease 3 seconds, default exception) and therefore
      give the same result in every situation. Their lock traces agree when
      no transaction is active at release; inside one, the template defers
      the unlock while the aspect, running outside the transaction, never does. */
  lemma LockStylesAgree(w: World, id: Long, user: UserId, env: LockEnv, now: nat)
    ensures AspectRequest(LockAopAnnotation(), id) == TemplateRequest(id)
    ensures IssueTicketLockAop(w, id, user, env, now).result == IssueTicketLockTemplate(w, id, user, env, now).result
    ensures !env.transactionActive ==> IssueTicketLockAop(w, id, user, env, now) == IssueTicketLockTemplate(w, id, user, env, now)
    ensures env.heldAtExit && env.transactionActive ==>
              && IssueTicketLockTemplate(w, id, user, env, now).lock.value.release == Some(DeferredToCompletion)
              && IssueTicketLockAop(w, id, user, env, now).lock.value.release != Some(DeferredToCompletion)
    ensures GoodLockName(TemplateRequest(id).name)
    ensures TryLockCall(TemplateRequest(id)) == TryLockLeased(0, 3, Seconds)
  {
    ConcertLockNameIsValid(id);
    assert AopEnv(env) == env.(transactionActive := false);
    if !env.transactionActive {
      assert AopEnv(env) == env;
    }
  }
}
