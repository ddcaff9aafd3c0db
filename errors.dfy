/** Error-code classification and the decision logic of the application error
    handlers: which PHP error codes count as errors, warnings, notices and fatal
    errors, when an error is turned into an ErrorException, when the shutdown
    hook hands the last error to the fatal handler, and the once-only latch that
    guards handler registration.

    A PHP integer is modelled by its 64-bit two's-complement bit pattern, so the
    `&` of the reporting-mask test is bit-vector conjunction. */
module PhpErrors {

  // PHP's predefined error constants.
  const E_ERROR: bv64 := 1
  const E_WARNING: bv64 := 2
  const E_PARSE: bv64 := 4
  const E_NOTICE: bv64 := 8
  const E_CORE_ERROR: bv64 := 16
  const E_CORE_WARNING: bv64 := 32
  const E_COMPILE_ERROR: bv64 := 64
  const E_COMPILE_WARNING: bv64 := 128
  const E_USER_ERROR: bv64 := 256
  const E_USER_WARNING: bv64 := 512
  const E_USER_NOTICE: bv64 := 1024
  const E_STRICT: bv64 := 2048
  const E_RECOVERABLE_ERROR: bv64 := 4096
  const E_DEPRECATED: bv64 := 8192
  const E_USER_DEPRECATED: bv64 := 16384
  /** Every error bit set (the value of E_ALL since PHP 5.4). */
  const E_ALL: bv64 := 32767

  /** The fifteen predefined error constants. */
  const KNOWN_CODES: set<bv64> :=
    {E_ERROR, E_WARNING, E_PARSE, E_NOTICE, E_CORE_ERROR, E_CORE_WARNING,
     E_COMPILE_ERROR, E_COMPILE_WARNING, E_USER_ERROR, E_USER_WARNING,
     E_USER_NOTICE, E_STRICT, E_RECOVERABLE_ERROR, E_DEPRECATED, E_USER_DEPRECATED}

  const ERROR_CODES: set<bv64> :=
    {E_ERROR, E_PARSE, E_CORE_ERROR, E_COMPILE_ERROR, E_USER_ERROR, E_RECOVERABLE_ERROR}
  const WARNING_CODES: set<bv64> :=
    {E_WARNING, E_CORE_WARNING, E_COMPILE_WARNING, E_USER_WARNING}
  const NOTICE_CODES: set<bv64> :=
    {E_NOTICE, E_USER_NOTICE, E_DEPRECATED, E_USER_DEPRECATED, E_STRICT}
  const FATAL_CODES: set<bv64> :=
    {E_ERROR, E_CORE_ERROR, E_COMPILE_ERROR, E_PARSE}

  predicate IsError(errno: bv64) { errno in ERROR_CODES }

  predicate IsWarning(errno: bv64) { errno in WARNING_CODES }

  predicate IsNotice(errno: bv64) { errno in NOTICE_CODES }

  /** A fatal code is always an error code. */
  function IsFatal(errno: bv64): (r: bool)
    ensures r ==> IsError(errno)
    ensures r ==> !IsWarning(errno) && !IsNotice(errno)
  {
    errno in FATAL_CODES
  }

  /** The three classes never overlap. */
  lemma ClassesDisjoint(errno: bv64)
    ensures !(IsError(errno) && IsWarning(errno))
    ensures !(IsError(errno) && IsNotice(errno))
    ensures !(IsWarning(errno) && IsNotice(errno))
  {
  }

  /** Every predefined constant falls in exactly one class, and the classes hold
      nothing else. */
  lemma ClassesPartitionKnownCodes()
    ensures ERROR_CODES + WARNING_CODES + NOTICE_CODES == KNOWN_CODES
    ensures ERROR_CODES !! WARNING_CODES && ERROR_CODES !! NOTICE_CODES && WARNING_CODES !! NOTICE_CODES
  {
  }

  /** The name of the class of an error code; codes outside every class,
      including unknown ones, are reported as errors. */
  function GetType(errno: bv64): (t: string)
    ensures t == "warning" <==> IsWarning(errno)
    ensures t == "notice" <==> IsNotice(errno)
    ensures t == "error" <==> !IsWarning(errno) && !IsNotice(errno)
    ensures t in {"error", "warning", "notice"}
  {
    if IsError(errno) then "error"
    else if IsWarning(errno) then "warning"
    else if IsNotice(errno) then "notice"
    else "error"
  }

  /** The exception both handlers raise, carrying the error's details. */
  datatype ErrorException = ErrorException(errno: bv64, message: string, file: string, line: int)

  /** What the error handler does with a reported error. */
  datatype ErrorOutcome = Ignored | Thrown(exception: ErrorException)

  /** The error handler: `reporting` is the current reporting mask. The error
      is turned into an exception exactly when one of its bits is reported. */
  function AppError(reporting: bv64, errno: bv64, errstr: string, errfile: string, errline: int): (r: ErrorOutcome)
    ensures r.Thrown? <==> reporting & errno != 0
    ensures r.Thrown? ==> r.exception == ErrorException(errno, errstr, errfile, errline)
  {
    if reporting & errno != 0 then Thrown(ErrorException(errno, errstr, errfile, errline)) else Ignored
  }

  /** Under the full mask every predefined error is raised; under the empty
      mask nothing is. */
  lemma AppErrorUnderFullAndEmptyMask(errno: bv64, errstr: string, errfile: string, errline: int)
    ensures errno in KNOWN_CODES ==> AppError(E_ALL, errno, errstr, errfile, errline).Thrown?
    ensures AppError(0, errno, errstr, errfile, errline) == Ignored
  {
  }

  /** Clearing one code's bit from the mask silences exactly that code among
      the predefined ones. */
  lemma AppErrorMaskedCode(code: bv64, errno: bv64, errstr: string, errfile: string, errline: int)
    requires code in KNOWN_CODES && errno in KNOWN_CODES
    ensures AppError(E_ALL & !code, errno, errstr, errfile, errline).Thrown? <==> errno != code
  {
  }

  /** The last error as the runtime reports it at shutdown. */
  datatype LastError = LastError(kind: bv64, message: string, file: string, line: int)

  datatype Option<T> = None | Some(value: T)

  /** What the shutdown hook does: nothing, or hand an exception to the
      application's exception handler with the fatal flag set. */
  datatype ShutdownAction = NoAction | HandleException(exception: ErrorException, fatal: bool)

  /** The shutdown hook: it delegates only when a last error exists and is fatal. */
  function AppShutdown(last: Option<LastError>): (r: ShutdownAction)
    ensures r.HandleException? <==> last.Some? && IsFatal(last.value.kind)
    ensures r.HandleException? ==>
              r.fatal && r.exception == ErrorException(last.value.kind, last.value.message, last.value.file, last.value.line)
  {
    match last
    case None => NoAction
    case Some(e) =>
      if IsFatal(e.kind) then HandleException(ErrorException(e.kind, e.message, e.file, e.line), true)
      else NoAction
  }

  /** A non-fatal last error, such as a warning or a user error, never reaches
      the fatal handler. */
  lemma AppShutdownIgnoresNonFatal(e: LastError)
    requires IsWarning(e.kind) || IsNotice(e.kind) || e.kind == E_USER_ERROR || e.kind == E_RECOVERABLE_ERROR
    ensures AppShutdown(Some(e)) == NoAction
  {
  }

  /** The process-wide registration state of the error handlers. `reporting`
      is the mask the runtime hands to AppError; `installations` counts how often
      the three handlers were installed. */
  class ErrorRegistry {
    var registered: bool
    var reporting: bv64
    var installations: nat

    /** A fresh runtime: nothing registered, the runtime's own default mask. */
    constructor (defaultReporting: bv64)
      ensures !registered && reporting == defaultReporting && installations == 0
    {
      registered := false;
      reporting := defaultReporting;
      installations := 0;
    }

    /** Registers the handlers with the application's configured mask `level`;
        every call after the first changes nothing. */
    method Register(level: bv64)
      modifies this
      ensures old(registered) ==> registered == old(registered) && reporting == old(reporting)
                                  && installations == old(installations)
      ensures !old(registered) ==> registered && reporting == level && installations == old(installations) + 1
    {
      if registered {
        return;
      }
      registered := true;
      reporting := level;
      installations := installations + 1;
    }
  }

  /** Registering twice installs the handlers once, with the first mask. */
  method RegisterTwice(defaultReporting: bv64, first: bv64, second: bv64) returns (mask: bv64, installations: nat)
    ensures mask == first && installations == 1
  {
    var registry := new ErrorRegistry(defaultReporting);
    registry.Register(first);
    registry.Register(second);
    mask, installations := registry.reporting, registry.installations;
  }

  /** The mask the first registration sets is the one the error handler
      tests: after registering with `level`, and again with any other level,
      an error is raised exactly when one of its bits is in `level`. */
  method RegisteredMaskDecides(defaultReporting: bv64, level: bv64, later: bv64,
                               errno: bv64, errstr: string, errfile: string, errline: int)
    returns (outcome: ErrorOutcome)
    ensures outcome.Thrown? <==> level & errno != 0
    ensures outcome.Thrown? ==> outcome.exception.errno == errno
  {
    var registry := new ErrorRegistry(defaultReporting);
    registry.Register(level);
    registry.Register(later);
    outcome := AppError(registry.reporting, errno, errstr, errfile, errline);
  }
}
