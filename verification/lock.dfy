/** The distributed lock template: name validation, lock selection, one
    acquisition attempt, the guarded block, and release or deferred release.

    What the lock service answers is not computed here: whether the attempt
    is granted, refused or interrupted, whether the current thread still holds
    the lock on exit, whether a transaction is active, and whether unlocking
    throws are all fields of a `LockEnv` supplied by the caller. Mutual
    exclusion itself is an assumption of the model, not something it proves. */
module LockTemplate {
  import opened Wrappers
  import opened Errors

  datatype LockType = Reentrant | Fair | Read | Write

  datatype TimeUnit = Nanoseconds | Microseconds | Milliseconds | Seconds | Minutes | Hours | Days

  /** Which lock object the client hands out for a name. */
  datatype LockFlavour = PlainLock | FairLock | ReadHalf | WriteHalf

  datatype RLock = RLock(name: string, flavour: LockFlavour)

  /** An exception class by name; `messageConstructor` says whether it can be
      built from a message alone. */
  datatype ExceptionClass = ExceptionClass(name: string, messageConstructor: bool)

  const LOCK_ACQUISITION_FAILED: string := "LockAcquisitionFailedException"

  /** The default exception class. Its primary constructor takes a message
      and an optional cause, so a call with the message alone may fail and
      fall back; either way the outcome names this class. */
  const DefaultExceptionClass: ExceptionClass := ExceptionClass(LOCK_ACQUISITION_FAILED, false)

  /** All parameters of one `execute` call. */
  datatype LockRequest = LockRequest(
    name: string,
    lockType: LockType,
    waitTime: int,
    leaseTime: int,
    timeUnit: TimeUnit,
    exceptionClass: ExceptionClass)

  /** An `execute` call that leaves every optional parameter at its default. */
  function DefaultRequest(name: string): LockRequest {
    LockRequest(name, Reentrant, 3, -1, Seconds, DefaultExceptionClass)
  }

  /** The two `tryLock` overloads. */
  datatype TryLock = TryLockNoLease(wait: int, unit: TimeUnit) | TryLockLeased(wait: int, lease: int, unit: TimeUnit)

  datatype Acquisition = Granted | Refused | Interrupted

  datatype LockEnv = LockEnv(acquisition: Acquisition, heldAtExit: bool, transactionActive: bool, unlockFails: bool)

  /** What the `finally` block did with the lock. */
  datatype Release = Unlocked | UnlockFailedLogged | DeferredToCompletion | NotHeldWarning

  /** Everything `execute` did besides producing its result. */
  datatype LockTrace = LockTrace(lock: Option<RLock>, attempt: Option<TryLock>, blockRan: bool, release: Option<Release>)

  datatype LockRun<T> = LockRun(result: Result<T, Failure>, trace: LockTrace)

  // ----- lock-name validation -------------------------------------------

  /** Kotlin's `Char.isWhitespace`: Java whitespace (the controls tab to
      carriage return and the four separators U+001C to U+001F) or a Unicode
      space, line or paragraph separator. NEL (U+0085) is a control character
      and neither. */
  predicate IsWhitespace(c: char) {
    || ('\U{9}' <= c <= '\U{D}')
    || ('\U{1C}' <= c <= '\U{20}')
    || c == '\U{A0}' || c == '\U{1680}'
    || ('\U{2000}' <= c <= '\U{200A}')
    || c == '\U{2028}' || c == '\U{2029}' || c == '\U{202F}' || c == '\U{205F}' || c == '\U{3000}'
  }

  /** `isBlank`: empty or whitespace only. */
  predicate IsBlank(s: string) {
    forall i :: 0 <= i < |s| ==> IsWhitespace(s[i])
  }

  /** One character of the class `[a-zA-Z0-9\-_.:]`. */
  predicate AllowedChar(c: char) {
    ('a' <= c <= 'z') || ('A' <= c <= 'Z') || ('0' <= c <= '9') || c == '-' || c == '_' || c == '.' || c == ':'
  }

  /** Matches the class repeated zero or more times, scanning left to right. */
  function AllAllowed(s: string): bool
    decreases |s|
  {
    |s| == 0 || (AllowedChar(s[0]) && AllAllowed(s[1..]))
  }

  /** Whole-string match of `^[a-zA-Z0-9\-_.:]+$`. */
  predicate MatchesLockNamePattern(s: string) {
    |s| >= 1 && AllAllowed(s)
  }

  const MAX_LOCK_NAME_LENGTH: nat := 255

  /** The three checks in the order the source runs them. */
  function ValidateLockName(s: string): (r: Option<LockNameError>)
    ensures r == Some(BlankName) <==> IsBlank(s)
    ensures !IsBlank(s) && !AllAllowed(s) ==> r == Some(IllegalCharacter)
    ensures !IsBlank(s) && AllAllowed(s) && |s| > MAX_LOCK_NAME_LENGTH ==> r == Some(NameTooLong(|s|))
  {
    if IsBlank(s) then Some(BlankName)
    else if !MatchesLockNamePattern(s) then Some(IllegalCharacter)
    else if |s| > MAX_LOCK_NAME_LENGTH then Some(NameTooLong(|s|))
    else None
  }

  /** The acceptance rule stated directly. */
  predicate GoodLockName(s: string) {
    1 <= |s| <= MAX_LOCK_NAME_LENGTH && forall i :: 0 <= i < |s| ==> AllowedChar(s[i])
  }

  lemma {:induction false} AllAllowedMeansEveryChar(s: string)
    ensures AllAllowed(s) <==> forall i :: 0 <= i < |s| ==> AllowedChar(s[i])
    decreases |s|
  {
    if |s| > 0 {
      AllAllowedMeansEveryChar(s[1..]);
      assert forall i :: 1 <= i < |s| ==> s[i] == s[1..][i - 1];
    }
  }

  /** The validator accepts exactly the non-empty names of at most 255
      allowed characters; no allowed character is whitespace, so the
      blank check never decides the verdict on its own. */
  lemma ValidateLockNameAccepts(s: string)
    ensures ValidateLockName(s).None? <==> GoodLockName(s)
  {
    AllAllowedMeansEveryChar(s);
    if GoodLockName(s) {
      assert !IsWhitespace(s[0]);
      assert !IsBlank(s);
    }
  }

  // ----- lock selection and exceptions ----------------------------------

  /** One lock object per type; read and write share one read/write lock. */
  function GetLockByType(name: string, t: LockType): (l: RLock)
    ensures l.name == name
    ensures t == Read ==> l.flavour == ReadHalf
    ensures t == Write ==> l.flavour == WriteHalf
    ensures t == Reentrant ==> l.flavour == PlainLock
    ensures t == Fair ==> l.flavour == FairLock
  {
    match t
    case Reentrant => RLock(name, PlainLock)
    case Fair => RLock(name, FairLock)
    case Read => RLock(name, ReadHalf)
    case Write => RLock(name, WriteHalf)
  }

  /** Distinct lock types never share a lock object. */
  lemma GetLockByTypeInjective(name: string, a: LockType, b: LockType)
    ensures GetLockByType(name, a) == GetLockByType(name, b) ==> a == b
  {
  }

  /** Builds the configured exception, falling back to the default class when
      the requested one cannot be built from a message. */
  function CreateException(cls: ExceptionClass, message: string): (e: Failure)
    ensures e.LockNotAvailable? && e.message == message
    ensures !cls.messageConstructor ==> e.exceptionClass == LOCK_ACQUISITION_FAILED
    ensures cls.messageConstructor ==> e.exceptionClass == cls.name
  {
    if cls.messageConstructor then LockNotAvailable(cls.name, message)
    else LockNotAvailable(LOCK_ACQUISITION_FAILED, message)
  }

  /** `leaseTime == -1` picks the overload without a lease. */
  function TryLockCall(req: LockRequest): (c: TryLock)
    ensures c.TryLockNoLease? <==> req.leaseTime == -1
    ensures c.wait == req.waitTime && c.unit == req.timeUnit
    ensures c.TryLockLeased? ==> c.lease == req.leaseTime
  {
    if req.leaseTime == -1 then TryLockNoLease(req.waitTime, req.timeUnit)
    else TryLockLeased(req.waitTime, req.leaseTime, req.timeUnit)
  }

  /** The `finally` block: a lock still held by this thread is released now,
      or, inside a transaction, once the transaction completes; a lock no
      longer held only produces a warning. Errors while releasing are logged. */
  function ReleaseOnExit(env: LockEnv): (r: Release)
    ensures r == DeferredToCompletion <==> env.heldAtExit && env.transactionActive
    ensures r == NotHeldWarning <==> !env.heldAtExit
    ensures r == Unlocked <==> env.heldAtExit && !env.transactionActive && !env.unlockFails
  {
    if !env.heldAtExit then NotHeldWarning
    else if env.transactionActive then DeferredToCompletion
    else if env.unlockFails then UnlockFailedLogged
    else Unlocked
  }

  /** The callback registered for after transaction completion: it unlocks
      only if this thread still holds the lock. The completion status
      (commit, rollback, unknown) is accepted but not consulted. */
  function AfterCompletion(status: int, stillHeld: bool): (unlocked: bool) {
    stillHeld
  }

  lemma AfterCompletionIgnoresStatus(s1: int, s2: int, held: bool)
    ensures AfterCompletion(s1, held) == AfterCompletion(s2, held)
    ensures AfterCompletion(s1, held) <==> held
  {
  }

  // ----- execute ----------------------------------------------------------

  function Execute<T>(req: LockRequest, env: LockEnv, block: () -> Result<T, Failure>): (run: LockRun<T>)
    ensures !GoodLockName(req.name) ==>
              && ValidateLockName(req.name).Some?
              && run.result == Failure(InvalidLockName(ValidateLockName(req.name).value))
              && run.trace == LockTrace(None, None, false, None)
    ensures GoodLockName(req.name) ==>
              && run.trace.lock == Some(GetLockByType(req.name, req.lockType))
              && run.trace.attempt == Some(TryLockCall(req))
              && run.trace.release == Some(ReleaseOnExit(env))
    ensures run.trace.blockRan <==> GoodLockName(req.name) && env.acquisition == Granted
    ensures run.trace.blockRan ==> run.result == block()
    ensures GoodLockName(req.name) && env.acquisition == Refused ==>
              run.result == Failure(CreateException(req.exceptionClass, "Lock not available: " + req.name))
    ensures GoodLockName(req.name) && env.acquisition == Interrupted ==>
              run.result == Failure(LockInterrupted)
  {
    ValidateLockNameAccepts(req.name);
    match ValidateLockName(req.name)
    case Some(reason) => LockRun(Failure(InvalidLockName(reason)), LockTrace(None, None, false, None))
    case None =>
      var lock := GetLockByType(req.name, req.lockType);
      var attempt := TryLockCall(req);
      var result :=
        match env.acquisition
        case Interrupted => Failure(LockInterrupted)
        case Refused => Failure(CreateException(req.exceptionClass, "Lock not available: " + req.name))
        case Granted => block();
      LockRun(result, LockTrace(Some(lock), Some(attempt), env.acquisition == Granted, Some(ReleaseOnExit(env))))
  }

  /** Whatever happens while releasing, the caller sees the same result: only
      the acquisition answer, the request and the block decide it. */
  lemma ReleaseNeverChangesResult<T>(req: LockRequest, e1: LockEnv, e2: LockEnv, block: () -> Result<T, Failure>)
    requires e1.acquisition == e2.acquisition
    ensures Execute(req, e1, block).result == Execute(req, e2, block).result
  {
  }

  /** Whether the lock ends up released: now, in the `finally` block, or
      later by the deferred callback, which re-checks at completion time
      whether this thread still holds the lock (`stillHeld`). */
  predicate EventuallyReleased(trace: LockTrace, status: int, stillHeld: bool) {
    || trace.release == Some(Unlocked)
    || (trace.release == Some(DeferredToCompletion) && AfterCompletion(status, stillHeld))
  }

  /** A lock left held on exit is deferred exactly inside a transaction; the
      deferred callback unlocks exactly when the lock is still held at
      completion. So a lock held on exit is released unless unlocking fails
      or it was deferred and its lease lapsed before the transaction ended. */
  lemma DeferredReleaseCompletes<T>(req: LockRequest, env: LockEnv, block: () -> Result<T, Failure>, status: int, stillHeld: bool)
    requires GoodLockName(req.name)
    ensures var run := Execute(req, env, block);
            run.trace.release == Some(DeferredToCompletion) <==> env.heldAtExit && env.transactionActive
    ensures var run := Execute(req, env, block);
            run.trace.release == Some(DeferredToCompletion) ==> (EventuallyReleased(run.trace, status, stillHeld) <==> stillHeld)
    ensures var run := Execute(req, env, block);
            env.heldAtExit && !env.unlockFails ==>
              (EventuallyReleased(run.trace, status, stillHeld) <==> !env.transactionActive || stillHeld)
  {
  }
}
