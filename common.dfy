// Shared value types of the journal: optional values, the Error record and
// the Result wrapper every service returns instead of throwing.

module Common {

  datatype Option<T> = None | Some(value: T)
  {
    /** C#'s `x ?? d`. */
    function GetOr(d: T): T {
      if Some? then value else d
    }
  }

  /** An error: a machine code, a human message and optional details.
    * Messages are the meaning of the application's Persian texts, in English. */
  datatype Error = Error(code: string, message: string, details: Option<string>)

  /** `Error.None`: empty code and message. */
  const NoError: Error := Error("", "", None)

  function Validation(message: string): Error { Error("Validation", message, None) }
  function NotFound(entity: string): Error { Error("NotFound", entity + " not found", None) }
  function Duplicate(message: string): Error { Error("Duplicate", message, None) }
  function Custom(code: string, message: string): Error { Error(code, message, None) }
  function InvalidCredentials(): Error { Error("InvalidCredentials", "wrong username or password", None) }
  function AccountLocked(remainingMinutes: int): Error { Error("AccountLocked", "account is locked", None) }
  function UserNotFound(): Error { Error("UserNotFound", "user not found", None) }
  function DuplicateUsername(): Error { Error("DuplicateUsername", "username already taken", None) }
  function WeakPassword(): Error { Error("WeakPassword", "password must be at least 6 characters", None) }
  function InvalidRecoveryKey(): Error { Error("InvalidRecoveryKey", "invalid recovery key", None) }
  function InvalidCurrentPassword(): Error { Error("InvalidCurrentPassword", "current password is wrong", None) }
  function PluginNotFound(id: string): Error { Error("PluginNotFound", "plugin not found", Some(id)) }
  /** `Error.TradeNotFound` and `Error.AccountNotFound` take an optional id
    * that becomes the details. The services name them without calling them
    * (`Error.TradeNotFound`, a method group); the model reads that as a call
    * without an id. */
  function TradeNotFound(): Error { Error("TradeNotFound", "trade not found", None) }
  function AccountNotFound(): Error { Error("AccountNotFound", "account not found", None) }
  /** Codes the services raise through factories that Error.cs does not
    * declare: `Error.Failure(message)` is read as the code "Failure" with that
    * message, the others as the code of their name. */
  function GeneralFailure(message: string): Error { Error("Failure", message, None) }
  function Unauthorized(): Error { Error("Unauthorized", "access denied", None) }
  function FieldNotFound(): Error { Error("FieldNotFound", "field not found", None) }
  function DuplicateFieldName(): Error { Error("DuplicateFieldName", "a field with this name already exists", None) }
  function CannotDeleteSystemField(): Error { Error("CannotDeleteSystemField", "system fields cannot be deleted", None) }

  /** `Error.HasError`: the code is non-empty. */
  predicate HasError(e: Error) {
    |e.code| > 0
  }

  /** `Error.Equals`: two errors are equal exactly when their codes are. */
  predicate SameError(a: Error, b: Error) {
    a.code == b.code
  }

  /** `Error.ToString`: "[Code] Message", plus " - Details" when details are present and non-empty. */
  function ErrorText(e: Error): (r: string)
    ensures "[" + e.code + "] " + e.message <= r
    ensures r == "[" + e.code + "] " + e.message <==> e.details.None? || e.details.value == ""
    ensures e.details.Some? && e.details.value != "" ==> |e.details.value| < |r| && r[|r| - |e.details.value|..] == e.details.value
  {
    var head := "[" + e.code + "] " + e.message;
    if e.details.None? || e.details.value == "" then head
    else head + " - " + e.details.value
  }

  lemma NoErrorHasNoError()
    ensures !HasError(NoError)
    ensures forall e: Error :: SameError(e, NoError) <==> !HasError(e)
  {
  }

  /** Code equality is an equivalence, and it agrees with HasError. */
  lemma SameErrorIsEquivalence(a: Error, b: Error, c: Error)
    ensures SameError(a, a)
    ensures SameError(a, b) ==> SameError(b, a)
    ensures SameError(a, b) && SameError(b, c) ==> SameError(a, c)
    ensures SameError(a, b) ==> (HasError(a) <==> HasError(b))
  {
  }

  /** Result<T>: a success carries a value, a failure carries an error. */
  datatype Result<T> = Success(value: T) | Failure(error: Error)
  {
    predicate IsFailure() { !Success? }

    /** The `Error` property: `Error.None` on success. */
    function Err(): Error {
      if Success? then NoError else error
    }

    /** The `Value` property: throwing on failure is `None`. */
    function Value(): (r: Option<T>)
      ensures r.Some? <==> Success?
      ensures Success? ==> r == Some(value)
    {
      if Success? then Some(value) else None
    }

    function GetValueOrDefault(d: T): (r: T)
      ensures Success? ==> r == value
      ensures IsFailure() ==> r == d
    {
      if Success? then value else d
    }
  }

  /** The well-formedness the Result constructor enforces: a failure never carries `Error.None`. */
  predicate WellFormed<T>(r: Result<T>) {
    r.Failure? ==> r.error != NoError
  }

  /** The protected Result constructor: it throws (`None`) when a success is given an error
    * other than `Error.None`, or a failure is given `Error.None`. */
  function Construct<T>(isSuccess: bool, value: T, error: Error): (r: Option<Result<T>>)
    ensures r.Some? <==> (isSuccess <==> error == NoError)
    ensures r.Some? ==> WellFormed(r.value) && r.value.Err() == error && (r.value.Success? <==> isSuccess)
  {
    if isSuccess && error != NoError then None
    else if !isSuccess && error == NoError then None
    else if isSuccess then Some(Success(value))
    else Some(Failure(error))
  }

  /** On every well-formed result, success is exactly "the error is Error.None". */
  lemma SuccessIffNoError<T>(r: Result<T>)
    requires WellFormed(r)
    ensures r.Success? <==> r.Err() == NoError
    ensures r.IsFailure() <==> !r.Success?
  {
  }

  /** `Result.Failure(e)` succeeds in building a result exactly for errors other than `Error.None`. */
  lemma FailureFactory<T>(v: T, e: Error)
    ensures Construct(false, v, e).Some? <==> e != NoError
    ensures HasError(e) ==> Construct(false, v, e) == Some(Failure(e))
  {
  }
}
