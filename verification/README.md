# Concert admission pipeline, modelled in Dafny

This project models the core of a concert-ticketing service. The service has five parts:

- **Waiting queue.** Each concert keeps a queue of users, scored by arrival time, in a shared key-value store.
- **Active set.** Each concert also keeps a bounded set of users admitted to buy, plus a sold-out flag.
- **Promotion tick.** A periodic tick moves users from the front of the waiting queue into the active set.
- **Ticket issuing.** Issuing a ticket runs under a distributed lock. It re-checks capacity in the database and closes the concert when the last seat goes.
- **Page-response advice.** A small response advice turns a page object into a map of selected fields.

The model is functional. Each store command and each service call is a pure transition on immutable data. A call returns `Result<(T, World), Failure>`, and a failed call leaves the world as it was. On this model the project proves:

- every operation's contract, including the error paths;
- the order of promotion: earlier score first, ties broken by user id;
- the injectivity of the store keys;
- the lock template's control flow;
- a whole-system invariant (`Safety.Inv`) kept by every operation, over any sequence of operations:
  - no concert ever holds more tickets than seats;
  - ticket holders are unique per concert;
  - no active set exceeds the limit;
  - nobody is both waiting and active;
  - a set sold-out flag means an emptied, full, SOLD_OUT concert, and the flag is never cleared.

Layout, one module per file:

| file | module | what it holds |
|---|---|---|
| wrappers.dfy | Wrappers | `Option` and `Result` |
| ids.dfy | Ids | 64-bit concert ids, 128-bit user ids, decimal rendering with its parse round trip |
| errors.dfy | Errors | business error codes and the lock template's failures |
| concert.dfy | Concerts | concerts, tickets, the ticket constructor's capacity check, the (concert, user) unique constraint |
| queue_keys.dfy | QueueKeys | store key names and the concert lock name |
| concert_queue.dfy | ConcertQueue | the per-concert queue state and every store command the repository issues |
| lock.dfy | LockTemplate | lock-name validation, lock selection, `execute`, release and deferred release |
| world.dfy | Admission | the whole state: concerts plus queue state per concert id |
| scheduler.dfy | Scheduler | the promotion tick |
| ticket_service.dfy | TicketService | queue registration and the three ticket-issuing entry points |
| safety.dfy | Safety | the step relation, the invariant, and run-level lemmas |
| page_key_names.dfy | PageKeyNames | the thirteen key names the page map uses |
| page_fields.dfy | PageFields | the `CustomPageResponse` flags and their defaults, the page fields, `toCustomMap` |
| page_advice.dfy | PageAdvice | `supports`, `beforeBodyWrite`, `handleApiResponse` |

Modelling choices:

- **User ids.** A user id is a number below 2^128. The canonical text form of a UUID orders the same way as the number, so the store's tie-break between equal scores (by member) becomes numeric order (`ConcertQueue.Before`).
- **Scores.** Scores are naturals, where the code uses a millisecond clock converted to a double.
- **Parameters.** Some inputs come from outside the code and are passed in:
  - the admission limit `LIMIT`, whose definition is not part of this model;
  - the fresh id from `UUID.randomUUID()`, required to be in no queue (`Admission.Fresh`);
  - clock readings;
  - the store's reply to the rank query;
  - the lock service's answers (`LockTemplate.LockEnv`): granted, refused or interrupted, whether the lock is still held on exit, whether a transaction is active, and whether unlocking throws.
- **Lock.** Mutual exclusion is an assumption of the model, not something it proves. Each service call is one atomic step. The lock makes that true of the issuing critical section. Registration and the tick take no lock in the code, so the bound on the active set holds only under this one-step-per-call reading.
- **Missing pieces.** `executeWithTransaction` is called by the service, but the lock template declares only `execute`. It is modelled as `execute` with the same name, wait and lease; whether a transaction is still active when its lock is released is an input (`LockEnv.transactionActive`). `countByConcertId` is the length of the concert's ticket list. `Concert.status` is a field of the concert.
- **Key expiry.** The active key's ten-minute expiry is a separate step, `Safety.Op.ExpireActive`, which may empty a whole active set at any time.

## Model

| member | source | states |
|---|---|---|
| Concerts.NewTicket | src/main/kotlin/com/example/demo/domain/ticket/model/Ticket.kt:59-63 | Fails with TICKET_MAX_RESERVED exactly when the concert already holds `maxSeats` tickets. On success it appends one ticket, last, carrying the concert's id and the given user. Afterwards the list holds at most `maxSeats` tickets, and id, seats and status are unchanged. |
| Concerts.SaveNewTicket | src/main/kotlin/com/example/demo/domain/ticket/model/Ticket.kt:27-30 | The capacity check comes first. Then a second ticket for the same (concert, user) pair is rejected as a constraint violation. Saving keeps holders unique. |
| Concerts.ValidateReservationMeansRoom | src/main/kotlin/com/example/demo/domain/concert/model/Concert.kt:43 | `validateReservation` holds exactly when constructing a ticket succeeds, and success grows the list by exactly one. |
| Concerts.EmptyConcertAccepts | src/main/kotlin/com/example/demo/domain/concert/model/Concert.kt:27-43 | A concert with no tickets and at least one seat accepts a reservation. |
| Concerts.FullStaysFull | src/main/kotlin/com/example/demo/domain/concert/model/Concert.kt:36-43 | Once full, a concert stays full however many tickets are appended. |
| QueueKeys.KeysInjective | src/main/kotlin/com/example/demo/domain/concert/dao/ConcertQueueRepository.kt:24-26 | Each key builder, and the lock name `concert:<id>`, is injective in the concert id. |
| QueueKeys.KeysDisjoint | src/main/kotlin/com/example/demo/domain/concert/dao/ConcertQueueRepository.kt:24-26 | For any two ids, a waiting, an active and a sold-out key, and the lock name, never coincide with one another. |
| Ids.NatRoundTrip | src/main/kotlin/com/example/demo/domain/concert/dao/ConcertQueueRepository.kt:24-26 | Decimal rendering of the id inside a key parses back to the same number. This is what makes the keys injective. |
| Ids.LongRoundTrip | src/main/kotlin/com/example/demo/domain/concert/dao/ConcertQueueRepository.kt:24-26 | The same round trip for signed 64-bit ids, with a leading minus sign. |
| Ids.LongToStringInjective | src/main/kotlin/com/example/demo/domain/concert/dao/ConcertQueueRepository.kt:24-26 | Distinct 64-bit ids render as distinct decimal strings. |
| ConcertQueue.AddToWaitingQueue | src/main/kotlin/com/example/demo/domain/concert/dao/ConcertQueueRepository.kt:28-32 | Reports true exactly when the user was absent. It inserts the user with the given score only then, and keeps every existing score and the active set. |
| ConcertQueue.GetWaitingSize | src/main/kotlin/com/example/demo/domain/concert/dao/ConcertQueueRepository.kt:34 | The number of waiting members; zero exactly when nobody waits. |
| ConcertQueue.WaitingSizeQuery | src/main/kotlin/com/example/demo/domain/concert/dao/ConcertQueueRepository.kt:34 | The waiting size is 0 for an unknown concert, grows by one when a new member is enqueued and not for a member already there, drops to 0 on a clear, and is untouched by the active-set and sold-out commands. |
| ConcertQueue.EnqueueIdempotent | src/main/kotlin/com/example/demo/domain/concert/dao/ConcertQueueRepository.kt:28-34 | A second enqueue of the same user reports false and changes nothing. The waiting size grows by one only when the first call inserted. |
| ConcertQueue.PopMinFromWaitingQueue | src/main/kotlin/com/example/demo/domain/concert/dao/ConcertQueueRepository.kt:38-39 | Returns min(count, waiting size) users and removes exactly those from waiting. Every popped user precedes every user still waiting, ordered by score and then by id. Active and sold-out are untouched. |
| ConcertQueue.MinEntry | src/main/kotlin/com/example/demo/domain/concert/dao/ConcertQueueRepository.kt:38-39 | Finds the first waiting member in promotion order. |
| ConcertQueue.AddToActiveQueue | src/main/kotlin/com/example/demo/domain/concert/dao/ConcertQueueRepository.kt:41-43 | The user becomes active. No other membership changes, and waiting and the flag are untouched. |
| ConcertQueue.AddActiveQueries | src/main/kotlin/com/example/demo/domain/concert/dao/ConcertQueueRepository.kt:41-55 | Re-adding an active member changes nothing. Adding a new member makes it active and raises the active size by one. |
| ConcertQueue.RemoveActiveQueue | src/main/kotlin/com/example/demo/domain/concert/dao/ConcertQueueRepository.kt:47-48 | Reports 1 if the user was active and 0 otherwise. It removes only that user; waiting and the flag are untouched. |
| ConcertQueue.AddThenRemoveActive | src/main/kotlin/com/example/demo/domain/concert/dao/ConcertQueueRepository.kt:41-48 | Removing a user just added to the active set restores the previous state and reports 1. |
| ConcertQueue.ClearWaitingQueue | src/main/kotlin/com/example/demo/domain/concert/dao/ConcertQueueRepository.kt:36 | Reports whether the waiting queue had members and empties it. Active and the flag are untouched. |
| ConcertQueue.ClearActiveQueue | src/main/kotlin/com/example/demo/domain/concert/dao/ConcertQueueRepository.kt:50 | Reports whether the active set had members and empties it. Waiting and the flag are untouched. |
| ConcertQueue.GetActiveSize | src/main/kotlin/com/example/demo/domain/concert/dao/ConcertQueueRepository.kt:52 | The number of active members; zero exactly when nobody is active. |
| ConcertQueue.ActiveSizeQuery | src/main/kotlin/com/example/demo/domain/concert/dao/ConcertQueueRepository.kt:52 | The active size is 0 for an unknown concert, grows by one when a new member is added, falls by the count the removal reports, drops to 0 on a clear, and is untouched by the waiting-queue and sold-out commands. |
| ConcertQueue.IsActive | src/main/kotlin/com/example/demo/domain/concert/dao/ConcertQueueRepository.kt:54-55 | Membership in the active set; a member implies an active size of at least one. |
| ConcertQueue.ActiveMembershipQuery | src/main/kotlin/com/example/demo/domain/concert/dao/ConcertQueueRepository.kt:54-55 | After an add the named user is active and nobody else changes; after a remove the named user is not; after a clear nobody is; the waiting-queue and sold-out commands change no membership. |
| ConcertQueue.SetSoldOut | src/main/kotlin/com/example/demo/domain/concert/dao/ConcertQueueRepository.kt:59-61 | Afterwards the flag reads as set, and both queues are untouched. |
| ConcertQueue.SoldOutQuery | src/main/kotlin/com/example/demo/domain/concert/dao/ConcertQueueRepository.kt:59-61 | The sold-out query is false for an unknown concert, true after `setSoldOut`, and kept as it was by every other command. |
| Scheduler.PromoteConcert | src/main/kotlin/com/example/demo/domain/concert/scheduler/QueueScheduler.kt:41-51 | Meets `Promoted`. With no free slot the queue is unchanged. Otherwise min(free slots, waiting) users leave waiting, in score order with ties broken by user id, and join active; the flag is kept. |
| Scheduler.PromotedFromPop | src/main/kotlin/com/example/demo/domain/concert/scheduler/QueueScheduler.kt:45-51 | Popping min(free slots, waiting) users in score order (ties by user id) and adding exactly those to active is a promotion. |
| Scheduler.ScheduleAllowUsers | src/main/kotlin/com/example/demo/domain/concert/scheduler/QueueScheduler.kt:32-54 | Every OPEN concert is promoted. Every concert with another status, and every id without a concert, keeps its queue; the concerts themselves are untouched. With no OPEN concert the tick is a no-op. |
| Scheduler.PromotedKeepsLimit | src/main/kotlin/com/example/demo/domain/concert/scheduler/QueueScheduler.kt:41-50 | If the active set is within the limit before promotion, it is within it afterwards. |
| Scheduler.PromotedMovesUsers | src/main/kotlin/com/example/demo/domain/concert/scheduler/QueueScheduler.kt:45-51 | Promotion preserves the union of waiting and active. Every user leaving waiting becomes active, and waiting stays disjoint from active. |
| Scheduler.TickKeepsLimit | src/main/kotlin/com/example/demo/domain/concert/scheduler/QueueScheduler.kt:37-53 | A whole tick keeps every concert's active set within the limit. |
| TicketService.RegisterQueue | src/main/kotlin/com/example/demo/domain/ticket/service/TicketServiceImpl.kt:93-110 | A sold-out concert fails with TICKET_MAX_RESERVED. Otherwise the user is admitted directly, with rank 0, exactly when nobody waits and the active set is below the limit. On the queued path the user enters waiting with the current time as score, active is unchanged, and the rank shown is the rank reply plus one (at least 1). Other concerts are untouched. |
| TicketService.DisplayRank | src/main/kotlin/com/example/demo/domain/ticket/service/TicketServiceImpl.kt:107 | The shown rank is the store's answer plus one, and exactly 1 when there is no answer; never below 1. |
| TicketService.ConcertLockNameIsValid | src/main/kotlin/com/example/demo/domain/ticket/service/TicketServiceImpl.kt:134 | `concert:<id>` passes lock-name validation for every 64-bit id. |
| TicketService.ReserveForActiveUser | src/main/kotlin/com/example/demo/domain/ticket/service/TicketServiceImpl.kt:138-154 | A missing concert gives CONCERT_NOT_FOUND. A SOLD_OUT or full concert gives TICKET_MAX_RESERVED. A duplicate holder is a constraint violation, not a business error. On success exactly one ticket for the user is appended and the count stays within `maxSeats`. At the ceiling the concert becomes SOLD_OUT, the flag is set and both queues are emptied; below it only the user leaves active. |
| TicketService.IssueTicket | src/main/kotlin/com/example/demo/domain/ticket/service/TicketServiceImpl.kt:119-156 | The sold-out flag gives TICKET_MAX_RESERVED, and a user outside the active set gives ACCESS_DENIED with rank+1. Both happen before any lock. Otherwise the plain lock `concert:<id>` is tried with wait 5 s and lease 3 s. When granted, the result is the critical section's. When refused it is the default lock exception with `Lock not available: concert:<id>`, and when interrupted it is the interrupted-lock failure. |
| TicketService.ReserveUnqueued | src/main/kotlin/com/example/demo/domain/ticket/service/TicketServiceImpl.kt:49-59 | No queue gate and no status check. A missing concert gives CONCERT_NOT_FOUND, a full one TICKET_MAX_RESERVED, and a duplicate holder a constraint violation. On success one ticket is appended and the queue state is untouched. |
| TicketService.RunUnqueued | src/main/kotlin/com/example/demo/domain/ticket/service/TicketServiceImpl.kt:68-85 | The body runs exactly when the name is valid and the lock is granted, and then its result is returned. An invalid name fails validation; a refused lock gives the configured exception with `Lock not available: <name>`; an interrupted wait gives the interrupted-lock failure. Success requires that the body ran. |
| TicketService.IssueTicketLockAop | src/main/kotlin/com/example/demo/domain/ticket/service/TicketServiceImpl.kt:46-60 | Runs the body exactly when the lock is granted, and then returns the body's own result, failures included. A refused lock gives the default lock exception with `Lock not available: concert:<id>`, an interrupted wait the interrupted-lock failure. The release is never deferred. |
| TicketService.AopEnv | src/main/kotlin/com/example/demo/infra/redis/lock/DistributedLockAspect.kt:24-30 | The aspect runs outside the `@Transactional` proxy, so no transaction is active when its lock is released; the lock service's other answers are kept. |
| TicketService.IssueTicketLockTemplate | src/main/kotlin/com/example/demo/domain/ticket/service/TicketServiceImpl.kt:68-85 | Runs the body exactly when the lock is granted, and then returns the body's own result, failures included. A refused lock gives the default lock exception with `Lock not available: concert:<id>`, an interrupted wait the interrupted-lock failure. The release is the template's `finally` decision for the given environment. |
| TicketService.LockStylesAgree | src/main/kotlin/com/example/demo/domain/ticket/service/TicketServiceImpl.kt:46-85 | The annotation and the explicit call build the same request: `concert:<id>`, reentrant, wait 0, lease 3 seconds, default exception. So both give the same result in every situation, the name is valid, and the leased `tryLock` overload is used. The lock traces agree when no transaction is active at release; inside one, the template defers the unlock and the aspect does not. |
| LockTemplate.ValidateLockName | src/main/kotlin/com/example/demo/infra/redis/lock/DistributedLockTemplate.kt:99-108 | A blank name (empty or all Kotlin whitespace) is reported as blank, and nothing else is. A non-blank name with a character outside the class is an illegal-character failure. A non-blank name of allowed characters longer than 255 is too long, carrying its length. The checks run in that order. |
| LockTemplate.ValidateLockNameAccepts | src/main/kotlin/com/example/demo/infra/redis/lock/DistributedLockTemplate.kt:99-108 | Accepts exactly the names of 1 to 255 characters drawn from `[a-zA-Z0-9-_.:]`. |
| LockTemplate.AllAllowedMeansEveryChar | src/main/kotlin/com/example/demo/infra/redis/lock/DistributedLockTemplate.kt:102 | The left-to-right pattern scan accepts exactly when every character is allowed. |
| LockTemplate.GetLockByType | src/main/kotlin/com/example/demo/infra/redis/lock/DistributedLockTemplate.kt:117-122 | Keeps the name. Reentrant gives the plain lock, fair the fair lock, and read and write the two halves of one read/write lock. |
| LockTemplate.GetLockByTypeInjective | src/main/kotlin/com/example/demo/infra/redis/lock/DistributedLockTemplate.kt:117-122 | Distinct lock types never yield the same lock object. |
| LockTemplate.CreateException | src/main/kotlin/com/example/demo/infra/redis/lock/DistributedLockTemplate.kt:131-140 | Always a lock-unavailable failure carrying the message. A class that cannot be built from a message falls back to LockAcquisitionFailedException. |
| LockTemplate.TryLockCall | src/main/kotlin/com/example/demo/infra/redis/lock/DistributedLockTemplate.kt:60-61 | The no-lease overload is chosen exactly when `leaseTime == -1`; wait and unit are passed through, and the lease when one is given. |
| LockTemplate.ReleaseOnExit | src/main/kotlin/com/example/demo/infra/redis/lock/DistributedLockTemplate.kt:76-88 | A deferred release happens exactly when the lock is held and a transaction is active. A warning is given exactly when the lock is not held. An immediate unlock happens exactly when the lock is held, no transaction is active and the unlock does not throw. |
| LockTemplate.AfterCompletionIgnoresStatus | src/main/kotlin/com/example/demo/infra/redis/lock/DistributedLockTemplate.kt:152-160 | The deferred callback unlocks exactly when the lock is still held, whatever the completion status. |
| LockTemplate.Execute | src/main/kotlin/com/example/demo/infra/redis/lock/DistributedLockTemplate.kt:45-90 | An invalid name fails before any lock is obtained or tried. Otherwise the type's lock is obtained and tried with the chosen overload. The block runs exactly when the lock is granted, and then its result is returned unchanged. Refusal gives the configured exception with `Lock not available: <name>`, and interruption gives a lock-interrupted failure. Release is decided by `ReleaseOnExit`. |
| LockTemplate.ReleaseNeverChangesResult | src/main/kotlin/com/example/demo/infra/redis/lock/DistributedLockTemplate.kt:75-89 | What happens while releasing (held or not, transaction or not, unlock errors) never changes the caller's result. |
| LockTemplate.DeferredReleaseCompletes | src/main/kotlin/com/example/demo/infra/redis/lock/DistributedLockTemplate.kt:148-162 | Release is deferred exactly when the lock is held on exit inside a transaction. The deferred callback unlocks exactly when the lock is still held at completion, so a lock held on exit (with a working unlock) is released unless it was deferred and no longer held when the transaction ended. |
| Safety.AppendKeepsConcertOk | src/main/kotlin/com/example/demo/domain/ticket/model/Ticket.kt:27-30 | Appending one ticket for a user holding none, below capacity, keeps the concert sound: own tickets only, unique holders, count within seats. |
| Safety.IssuePreservesInv | src/main/kotlin/com/example/demo/domain/ticket/service/TicketServiceImpl.kt:138-154 | The issuing critical section keeps the whole-system invariant. |
| Safety.UnqueuedPreservesInv | src/main/kotlin/com/example/demo/domain/ticket/service/TicketServiceImpl.kt:49-59 | The unqueued issuing body keeps the invariant. |
| Safety.RegisterPreservesInv | src/main/kotlin/com/example/demo/domain/ticket/service/TicketServiceImpl.kt:93-110 | Registration of a fresh user keeps the invariant, including the active limit and waiting and active staying disjoint. |
| Safety.TickPreservesInv | src/main/kotlin/com/example/demo/domain/concert/scheduler/QueueScheduler.kt:32-54 | A tick keeps the invariant. |
| Safety.NextPreservesInv | src/main/kotlin/com/example/demo/domain/ticket/service/TicketServiceImpl.kt:93-156 | Every operation keeps the invariant: registration, the three issuing paths, active-set expiry and the tick. |
| Safety.RunKeepsCapacity | src/main/kotlin/com/example/demo/domain/ticket/service/TicketServiceImpl.kt:140-146 | Along any run of operations from a sound state, the invariant holds throughout, and no concert ever has more tickets than seats. |
| Safety.StepMonotone | src/main/kotlin/com/example/demo/domain/concert/dao/ConcertQueueRepository.kt:59-61 | No step clears a sold-out flag or removes a stored ticket. |
| Safety.SoldOutStaysSoldOut | src/main/kotlin/com/example/demo/domain/concert/dao/ConcertQueueRepository.kt:59-61 | Along any run, a sold-out flag, once set, stays set. |
| Safety.SoldOutRefusesAll | src/main/kotlin/com/example/demo/domain/ticket/service/TicketServiceImpl.kt:94-123 | In a sound state, a sold-out concert refuses registration and issuance with TICKET_MAX_RESERVED, and both unqueued paths fail. |
| Safety.OneSeatTwoUsers | src/main/kotlin/com/example/demo/domain/ticket/service/TicketServiceImpl.kt:140-152 | A one-seat concert with two admitted users: the first issue succeeds and closes the concert, and the second is refused as sold out. |
| PageFields.ToCustomMapSelectsByFlag | src/main/kotlin/com/example/demo/common/response/advice/PageResponseAdvice.kt:66-80 | The map holds a field's key exactly when its flag is set, with that field's value, and holds nothing else. |
| PageFields.FieldSelectedByFlag | src/main/kotlin/com/example/demo/common/response/advice/PageResponseAdvice.kt:67-79 | The same statement for one field. |
| PageFields.KeyComesFromFlaggedField | src/main/kotlin/com/example/demo/common/response/advice/PageResponseAdvice.kt:66-80 | Every key in the map belongs to a field whose flag is set. |
| PageFields.AllKeysSpelledOut | src/main/kotlin/com/example/demo/common/response/advice/PageResponseAdvice.kt:67-79 | The keys of the thirteen fields are exactly the thirteen documented names, with no two fields sharing one. |
| PageFields.DefaultsGiveAllKeys | src/main/kotlin/com/example/demo/common/response/annotation/CustomPageResponse.kt:20-32 | With every flag at its default, the map's keys are exactly the thirteen names, so it has thirteen entries. |
| PageAdvice.HandleApiResponse | src/main/kotlin/com/example/demo/common/response/advice/PageResponseAdvice.kt:56-64 | Page data is replaced by its custom map, keeping status and message. Any other data is returned unchanged. |
| PageAdvice.BeforeBodyWrite | src/main/kotlin/com/example/demo/common/response/advice/PageResponseAdvice.kt:33-47 | No annotation, a missing body, or a body that is neither a page nor an API response passes through unchanged. A page becomes its custom map. An API response goes to `handleApiResponse` with the method's annotation. |
| PageAdvice.ApiResponseKeepsEnvelope | src/main/kotlin/com/example/demo/common/response/advice/PageResponseAdvice.kt:56-64 | An API response comes back as an API response with the same status and message. If its data is not a page, it comes back unchanged. |
| PageAdvice.SupportsGatesRewrite | src/main/kotlin/com/example/demo/common/response/advice/PageResponseAdvice.kt:28-31 | Without the annotation every body passes through; with it, a page body is always rewritten. |
| PageAdvice.BeforeBodyWriteSettles | src/main/kotlin/com/example/demo/common/response/advice/PageResponseAdvice.kt:33-64 | A second pass over the advice's own output changes nothing. |

Source paths are relative to the repository root.

## Left out

- **Rank query.** `getRank` asks for a sorted-set rank on the active key (`ConcertQueueRepository.kt:57`), but that key holds a plain set. The reply is an opaque `Option<nat>` parameter. The model does not claim it is the user's waiting position, and does not model a store type error for it.
- **Redis client.** The generic Redis repository is not part of this model. Only the semantics of the commands the queue uses are encoded, directly in `ConcertQueue`.
- **Redisson internals.** Real concurrency and Redisson's internals are left out: waiting inside `tryLock`, fairness, read/write sharing, reentrancy counts and lease expiry. Acquisition is one answer from `LockEnv`.
- **Interrupted block.** An `InterruptedException` thrown by the guarded block itself, rather than by `tryLock`, is not separated from other block failures.
- **Thread interrupt flag.** Restoring the thread's interrupt flag is not modelled; only the failure it ends in is.
- **Logging.** All logging is left out, except that a release problem is recorded as a `Release` outcome instead of an exception.
- **Exception construction.** Whether an exception class can be built from a message alone is a field of `ExceptionClass`. Reflection is not modelled. The default class is taken to fall back to itself.
- **Lock annotation.** The lock annotation's expression-language key is modelled as a formatting function of the concert id, and the aspect as a call to `execute` with the annotation's fields. The AOP proxy and the parser are not part of this model.
- **Persistence.** Lookups by id, auditing timestamps and the database-side enforcement of the unique constraint are not modelled. The constraint is an abstract rejection, `Errors.Failure.ConstraintViolation`, raised when the ticket is saved; it is a data-integrity failure, not a business error.
- **Key order.** `toCustomMap` builds an insertion-ordered map, which fixes the order of the keys in the JSON output. `PageFields.ToCustomMap` is a Dafny `map`, so the model says which keys and values appear but not their order.
- **HTTP layer.** HTTP controllers, DTO wrappers, the exception handler and HTTP status codes are left out. Errors are the `Errors.Failure` datatype.
- **Pop count.** `popMinFromWaitingQueue` takes a `nat` count. The tick only calls it with a positive number of free slots, so a negative count never occurs.
- LockTemplate.IsWhitespace: follows Kotlin's `Char.isWhitespace` (Java whitespace or a Unicode space, line or paragraph separator) as a fixed list of ranges rather than the Unicode tables; no allowed lock-name character is whitespace, so the choice never changes whether a name is accepted.
- Scheduler.ScheduleAllowUsers: processes OPEN concerts in an unspecified order rather than the repository's list order; the queues of distinct concerts are independent, so the final state is the same.
- TicketService.RegisterQueue: requires a fresh user id, standing in for `UUID.randomUUID()`; a collision with an existing id is not modelled.
