/** The failures the admission pipeline can raise, one variant per exception
    the core throws. HTTP statuses and message texts are left to the web layer. */
module Errors {
  import opened Wrappers

  /** Business error codes used by the core. `AccessDenied` carries the rank
      shown in its message: the active-set rank plus one, or "unknown". */
  datatype ErrorCode =
    | ConcertNotFound
    | TicketMaxReserved
    | AccessDenied(shownRank: Option<nat>)

  /** Why a lock name was refused, in the order the checks run. */
  datatype LockNameError = BlankName | IllegalCharacter | NameTooLong(length: nat)

  datatype Failure =
    | Business(code: ErrorCode)
      /** The database's rejection of a second ticket for the same
          (concert, user) pair; not a business error. */
    | ConstraintViolation
      /** IllegalArgumentException from lock-name validation. */
    | InvalidLockName(reason: LockNameError)
      /** The configured exception class (by name) raised when the lock is busy. */
    | LockNotAvailable(exceptionClass: string, message: string)
      /** IllegalStateException raised after an interrupted lock wait. */
    | LockInterrupted
}
