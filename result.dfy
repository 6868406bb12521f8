/**
 * The success-or-failure result envelope of EFE.Result (Result.cs): the
 * `ResultStatus` classification, the `ErrorDetail` record and the generic
 * `Result<T>` with its constructors, implicit conversions, factories and
 * `LogErrors`.
 *
 * The C# `Result<T>` is a mutable property bag whose constructors run the
 * property initialisers and then assign some of the properties. Results are
 * built once and then only read, so the model is an immutable datatype with
 * the same four properties, and each constructor is a function that starts
 * from the initialised state and updates the fields the C# body assigns.
 */
module EfeResult {
  import opened Wrappers

  // ---------------------------------------------------------------------
  // ResultStatus
  // ---------------------------------------------------------------------

  /** The closed set of outcome classifications, in declaration order. */
  datatype ResultStatus = Success | NotFound | BadRequest | InternalServerError | Unauthorized | Forbidden
  {
    /** The classifications whose value lies in the 4xx (client error) class of RFC 9110, section 15. */
    predicate IsClientError() {
      NotFound? || BadRequest? || Unauthorized? || Forbidden?
    }
  }

  /** The integer value of an enum member, following HTTP status-code conventions. */
  function Code(s: ResultStatus): (n: int)
    ensures 200 <= n < 600
    ensures s == Success <==> 200 <= n < 300
    ensures s.IsClientError() <==> 400 <= n < 500
    ensures s == InternalServerError <==> 500 <= n < 600
    ensures s == Success ==> n == 200
    ensures s == NotFound ==> n == 404
    ensures s == BadRequest ==> n == 400
    ensures s == InternalServerError ==> n == 500
    ensures s == Unauthorized ==> n == 401
    ensures s == Forbidden ==> n == 403
  {
    match s
    case Success => 200
    case NotFound => 404
    case BadRequest => 400
    case InternalServerError => 500
    case Unauthorized => 401
    case Forbidden => 403
  }

  /** Distinct members carry distinct values, so the value identifies the member. */
  lemma CodeInjective(s: ResultStatus, t: ResultStatus)
    ensures Code(s) == Code(t) <==> s == t
  {
  }

  /**
   * The inverse of `Code`: the value-to-member lookup of the enum declaration,
   * giving the member declared with value `n`, or `None` when no member is.
   */
  function FromCode(n: int): (r: Option<ResultStatus>)
    ensures r.Some? ==> Code(r.value) == n
    ensures r.None? ==> forall s: ResultStatus :: Code(s) != n
  {
    if n == 200 then Some(Success)
    else if n == 404 then Some(NotFound)
    else if n == 400 then Some(BadRequest)
    else if n == 500 then Some(InternalServerError)
    else if n == 401 then Some(Unauthorized)
    else if n == 403 then Some(Forbidden)
    else None
  }

  /** Converting a member to its value and back gives the member again. */
  lemma CodeRoundTrip(s: ResultStatus)
    ensures FromCode(Code(s)) == Some(s)
  {
  }

  // ---------------------------------------------------------------------
  // ErrorDetail
  // ---------------------------------------------------------------------

  /** One structured error: a human message, a machine code and an optional target. */
  datatype ErrorDetail = ErrorDetail(message: string, code: string, target: Option<string>)

  /** The `ErrorDetail` constructor; the target is absent when the caller omits it. */
  function NewErrorDetail(message: string, code: string, target: Option<string> := None): (e: ErrorDetail)
    ensures e.message == message && e.code == code && e.target == target
  {
    ErrorDetail(message, code, target)
  }

  // ---------------------------------------------------------------------
  // Result<T>
  // ---------------------------------------------------------------------

  /**
   * The envelope's four properties. `data` and `errorMessages` are `None`
   * where the C# properties hold their default (`null` or `default(T)`).
   */
  datatype Result<T> = Result(
    data: Option<T>,
    errorMessages: Option<seq<ErrorDetail>>,
    isSuccessful: bool,
    statusCode: ResultStatus)

  /** The state every constructor starts from: the property initialisers. */
  function Initial<T>(): (r: Result<T>)
    ensures r.isSuccessful && r.statusCode == Success
    ensures r.data.None? && r.errorMessages.None?
  {
    Result(None, None, true, Success)
  }

  /**
   * The invariant of a well-built envelope: a successful one holds data, no
   * error list and status `Success`; a failed one holds no data and a
   * non-empty error list. The status of a failed envelope is the caller's
   * choice and is not constrained.
   */
  predicate WellFormed<T>(r: Result<T>) {
    if r.isSuccessful then
      r.data.Some? && r.errorMessages.None? && r.statusCode == Success
    else
      r.data.None? && r.errorMessages.Some? && |r.errorMessages.value| > 0
  }

  /** Exactly one of "data present" and "error list non-empty" holds. */
  predicate ExactlyOneOutcome<T>(r: Result<T>) {
    r.data.Some? != (r.errorMessages.Some? && |r.errorMessages.value| > 0)
  }

  /** A well-formed envelope is a disjoint union: never both outcomes, never neither. */
  lemma WellFormedIsDisjointUnion<T>(r: Result<T>)
    requires WellFormed(r)
    ensures ExactlyOneOutcome(r)
    ensures r.isSuccessful <==> r.data.Some?
  {
  }

  /** The data constructor: a successful envelope holding `data`. */
  function FromData<T>(data: T): (r: Result<T>)
    ensures r.isSuccessful && r.data == Some(data)
    ensures r.errorMessages.None? && r.statusCode == Success
    ensures WellFormed(r)
  {
    Initial<T>().(data := Some(data))
  }

  /**
   * The list constructor: a failed envelope with the caller's status and the
   * caller's list, kept in order. Nothing checks that the list is non-empty,
   * so the result is well formed exactly when it is.
   */
  function FromErrors<T>(statusCode: ResultStatus, errorMessages: seq<ErrorDetail>): (r: Result<T>)
    ensures !r.isSuccessful && r.data.None?
    ensures r.statusCode == statusCode && r.errorMessages == Some(errorMessages)
    ensures WellFormed(r) <==> |errorMessages| > 0
  {
    Initial<T>().(isSuccessful := false, statusCode := statusCode, errorMessages := Some(errorMessages))
  }

  /** The single-detail constructor: a failed envelope whose list is exactly `[errorMessage]`. */
  function FromError<T>(statusCode: ResultStatus, errorMessage: ErrorDetail): (r: Result<T>)
    ensures !r.isSuccessful && r.data.None?
    ensures r.statusCode == statusCode && r.errorMessages == Some([errorMessage])
    ensures WellFormed(r)
    ensures r == FromErrors(statusCode, [errorMessage])
  {
    Initial<T>().(isSuccessful := false, statusCode := statusCode, errorMessages := Some([errorMessage]))
  }

  /** The implicit conversion from a bare value. */
  function ImplicitFromData<T>(data: T): (r: Result<T>)
    ensures r == FromData(data)
    ensures r.isSuccessful && r.data == Some(data)
  {
    FromData(data)
  }

  /** The implicit conversion from a `(status, list)` pair. */
  function ImplicitFromErrors<T>(parameters: (ResultStatus, seq<ErrorDetail>)): (r: Result<T>)
    ensures r == FromErrors(parameters.0, parameters.1)
    ensures !r.isSuccessful && r.statusCode == parameters.0 && r.errorMessages == Some(parameters.1)
  {
    FromErrors(parameters.0, parameters.1)
  }

  /** The implicit conversion from a `(status, detail)` pair. */
  function ImplicitFromError<T>(parameters: (ResultStatus, ErrorDetail)): (r: Result<T>)
    ensures r == FromError(parameters.0, parameters.1)
    ensures !r.isSuccessful && r.statusCode == parameters.0 && r.errorMessages == Some([parameters.1])
  {
    FromError(parameters.0, parameters.1)
  }

  /** The success factory. */
  function Succeed<T>(data: T): (r: Result<T>)
    ensures r == FromData(data)
    ensures r.isSuccessful && r.data == Some(data)
    ensures r.errorMessages.None? && r.statusCode == Success
  {
    FromData(data)
  }

  /**
   * The failure factory with an explicit status. The `params` array is copied
   * into a fresh list, so the envelope holds the details in the order given.
   */
  function Failure<T>(statusCode: ResultStatus, errorMessages: seq<ErrorDetail>): (r: Result<T>)
    ensures r == FromErrors(statusCode, errorMessages)
    ensures !r.isSuccessful && r.data.None?
    ensures r.statusCode == statusCode && r.errorMessages == Some(errorMessages)
    ensures WellFormed(r) <==> |errorMessages| > 0
  {
    FromErrors(statusCode, errorMessages)
  }

  /** The failure factory without a status: it defaults to `InternalServerError`. */
  function FailureDefaultStatus<T>(errorMessages: seq<ErrorDetail>): (r: Result<T>)
    ensures r == Failure(InternalServerError, errorMessages)
    ensures !r.isSuccessful && r.statusCode == InternalServerError
    ensures r.errorMessages == Some(errorMessages)
  {
    FromErrors(InternalServerError, errorMessages)
  }

  /**
   * The factories reach exactly the well-formed envelopes: every well-formed
   * envelope is `Succeed` of its data or `Failure` of its status and list.
   */
  lemma WellFormedIsBuilt<T>(r: Result<T>)
    requires WellFormed(r)
    ensures r.isSuccessful ==> r == Succeed(r.data.value)
    ensures !r.isSuccessful ==> r == Failure(r.statusCode, r.errorMessages.value)
  {
  }

  /**
   * Different arguments give different envelopes, and no success equals a
   * failure. This follows from the injectivity of the datatype constructor
   * once the factories' initialised fields are taken into account.
   */
  lemma FactoriesInjective<T>(v: T, w: T, c: ResultStatus, c': ResultStatus, ds: seq<ErrorDetail>, ds': seq<ErrorDetail>)
    ensures Succeed(v) == Succeed(w) <==> v == w
    ensures Failure<T>(c, ds) == Failure<T>(c', ds') <==> c == c' && ds == ds'
    ensures Succeed(v) != Failure(c, ds)
  {
  }

  /**
   * `Failure` with no details builds a failed envelope that carries neither
   * data nor an error: the disjoint-union invariant does not hold for it.
   */
  lemma EmptyFailureHasNoOutcome<T>()
    ensures var r := FailureDefaultStatus<T>([]);
      !r.isSuccessful && r.errorMessages == Some([]) && !ExactlyOneOutcome(r) && !WellFormed(r)
  {
  }

  /** Nothing ties the status to the flag: a failed envelope may carry `Success`. */
  lemma FailureMayCarrySuccessStatus<T>(d: ErrorDetail)
    ensures var r := Failure<T>(Success, [d]);
      WellFormed(r) && !r.isSuccessful && r.statusCode == Success
  {
  }

  // ---------------------------------------------------------------------
  // Serialised view
  // ---------------------------------------------------------------------

  /** What serialisation sees of an envelope: every property but `statusCode`. */
  datatype WireResult<T> = WireResult(
    data: Option<T>,
    errorMessages: Option<seq<ErrorDetail>>,
    isSuccessful: bool)

  /** The serialised view of an envelope; `statusCode` is ignored. */
  function Serialized<T>(r: Result<T>): (w: WireResult<T>)
    ensures w.data == r.data && w.errorMessages == r.errorMessages && w.isSuccessful == r.isSuccessful
  {
    WireResult(r.data, r.errorMessages, r.isSuccessful)
  }

  /** Two envelopes look the same on the wire exactly when they differ at most in their status. */
  lemma SerializedForgetsOnlyStatus<T>(r: Result<T>, r': Result<T>)
    ensures Serialized(r) == Serialized(r') <==> r.(statusCode := r'.statusCode) == r'
  {
  }

  // ---------------------------------------------------------------------
  // LogErrors
  // ---------------------------------------------------------------------

  /** One emitted diagnostic line: an error's message, code and target. */
  datatype LogLine = LogLine(message: string, code: string, target: Option<string>)

  /** The line emitted for one error. */
  function LineOf(e: ErrorDetail): (line: LogLine)
    ensures line.message == e.message && line.code == e.code && line.target == e.target
  {
    LogLine(e.message, e.code, e.target)
  }

  /** The lines emitted for a list of errors: one per error, in list order. */
  function LinesOf(errors: seq<ErrorDetail>): (lines: seq<LogLine>)
    ensures |lines| == |errors|
    ensures forall i :: 0 <= i < |errors| ==> lines[i] == LineOf(errors[i])
  {
    if errors == [] then [] else [LineOf(errors[0])] + LinesOf(errors[1..])
  }

  /** Everything `LogErrors` emits for `r`. */
  function Report<T>(r: Result<T>): (lines: seq<LogLine>)
    ensures r.isSuccessful || r.errorMessages.None? ==> lines == []
    ensures !r.isSuccessful && r.errorMessages.Some? ==>
      |lines| == |r.errorMessages.value| &&
      forall i :: 0 <= i < |lines| ==> lines[i] == LineOf(r.errorMessages.value[i])
  {
    if !r.isSuccessful && r.errorMessages.Some? then LinesOf(r.errorMessages.value) else []
  }

  /**
   * Emits one line per error, in list order, when the envelope failed and
   * carries a list; emits nothing otherwise.
   */
  method LogErrors<T>(r: Result<T>) returns (lines: seq<LogLine>)
    ensures lines == Report(r)
    ensures r.isSuccessful || r.errorMessages.None? ==> lines == []
    ensures !r.isSuccessful && r.errorMessages.Some? ==>
      |lines| == |r.errorMessages.value| &&
      forall i :: 0 <= i < |lines| ==> lines[i] == LineOf(r.errorMessages.value[i])
  {
    lines := [];
    if !r.isSuccessful && r.errorMessages.Some? {
      var errors := r.errorMessages.value;
      for i := 0 to |errors|
        invariant |lines| == i
        invariant forall k :: 0 <= k < i ==> lines[k] == LineOf(errors[k])
      {
        lines := lines + [LineOf(errors[i])];
      }
    }
  }

  /** A successful envelope reports nothing. */
  lemma ReportOfSucceed<T>(v: T)
    ensures Report(Succeed(v)) == []
  {
  }

  /** A failure built from `ds` reports exactly `|ds|` lines, line `i` describing `ds[i]`. */
  lemma ReportOfFailure<T>(c: ResultStatus, ds: seq<ErrorDetail>)
    ensures |Report(Failure<T>(c, ds))| == |ds|
    ensures forall i :: 0 <= i < |ds| ==>
      Report(Failure<T>(c, ds))[i] == LogLine(ds[i].message, ds[i].code, ds[i].target)
  {
  }
}
