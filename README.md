# EFE.Result in Dafny

A model of EFE.Result, a generic success-or-failure envelope (`Result.cs`). A
`Result<T>` holds either a data value or a list of `ErrorDetail` records with a
`ResultStatus`. `ResultStatus` is a closed enumeration whose integer values follow
HTTP status-code conventions (RFC 9110, section 15).

The C# `Result<T>` is a mutable property bag. Each constructor first runs the property
initialisers (`IsSuccessful = true`, `StatusCode = Success`, the rest null or
`default`) and then assigns some of the properties. Results are built once and only
read afterwards, so the model is an immutable datatype with the same four
properties. Each constructor is a function that starts from the initialised state
(`Initial`) and updates the fields the C# body assigns. A C# `null` or `default(T)`
becomes `None`.

The model keeps two permissive behaviours of the code:

- `Failure()` with no details builds a failed envelope whose error list is empty.
  The code has no guard against this.
- A failed envelope may carry status `Success`.

`WellFormed` states the invariant of a well-built envelope: a disjoint union of data and a non-empty
error list. The failure constructors and factories prove `WellFormed(r)` exactly when
the list they are given is non-empty. `EmptyFailureHasNoOutcome` shows the empty case.

`LogErrors` is a method that returns the lines it would print. Each line is a
`(message, code, target)` record.

Files: `wrappers.dfy` (the `Option` datatype), `result.dfy` (module `EfeResult`).

## Model

| member | source | states |
|---|---|---|
| `EfeResult.Code` | Result.cs:5-13 | the declared values Success=200, NotFound=404, BadRequest=400, InternalServerError=500, Unauthorized=401, Forbidden=403; also, `Success` is exactly the 2xx value, the four client errors exactly the 4xx values, `InternalServerError` exactly the 5xx value |
| `EfeResult.CodeInjective` | Result.cs:5-13 | two members have equal values if and only if they are the same member |
| `EfeResult.FromCode` | Result.cs:5-13 | inverse of the values: a member it returns has value `n`; it returns none only when no member has value `n` |
| `EfeResult.CodeRoundTrip` | Result.cs:5-13 | converting a member to its value and back gives the same member |
| `EfeResult.NewErrorDetail` | Result.cs:21-26 | stores message, code and target unchanged; target is absent when omitted |
| `EfeResult.Initial` | Result.cs:31-36 | the property initialisers: `IsSuccessful` true, `StatusCode` `Success`, no data and no error list |
| `EfeResult.WellFormedIsDisjointUnion` | Result.cs:31-36 | a well-formed envelope has exactly one of data present and a non-empty error list, and it is successful if and only if data is present |
| `EfeResult.FromData` | Result.cs:31-41 | successful, holds `data`, no error list, status `Success` from the initialisers; well formed |
| `EfeResult.FromErrors` | Result.cs:43-48 | failed, no data, the caller's status and list in order; well formed if and only if the list is non-empty |
| `EfeResult.FromError` | Result.cs:50-55 | failed, no data, the caller's status, a list holding exactly the one detail; equal to the list constructor on `[detail]`; always well formed |
| `EfeResult.ImplicitFromData` | Result.cs:57-60 | equal to the data constructor: successful and holds the value |
| `EfeResult.ImplicitFromErrors` | Result.cs:62-65 | equal to the list constructor on the pair's status and list |
| `EfeResult.ImplicitFromError` | Result.cs:67-70 | equal to the single-detail constructor on the pair's status and detail |
| `EfeResult.Succeed` | Result.cs:72-75 | successful, data is the value, no error list, status `Success`; the same as the data constructor |
| `EfeResult.Failure` | Result.cs:77-80 | failed, no data, the given status, the details in the given order; well formed if and only if at least one detail is given |
| `EfeResult.FailureDefaultStatus` | Result.cs:82-85 | status `InternalServerError`; otherwise identical to `Failure(InternalServerError, ds)` |
| `EfeResult.WellFormedIsBuilt` | Result.cs:72-85 | every well-formed envelope is `Succeed` of its data or `Failure` of its status and list |
| `EfeResult.FactoriesInjective` | Result.cs:72-85 | `Succeed` and `Failure` are injective in their arguments, and no success equals a failure |
| `EfeResult.EmptyFailureHasNoOutcome` | Result.cs:82-85 | `Failure()` with no details gives a failed envelope with an empty list: neither outcome is present and it is not well formed |
| `EfeResult.FailureMayCarrySuccessStatus` | Result.cs:43-48 | a failed, well-formed envelope can carry status `Success`, because nothing ties status to the flag |
| `EfeResult.Serialized` | Result.cs:31-36 | the wire view keeps data, error list and flag and drops `StatusCode` |
| `EfeResult.SerializedForgetsOnlyStatus` | Result.cs:35-36 | two envelopes serialise identically if and only if they differ at most in their status |
| `EfeResult.LineOf` | Result.cs:93 | the line for one error carries that error's message, code and target |
| `EfeResult.Report` | Result.cs:89-94 | nothing when the envelope succeeded or has no list; otherwise one line per error, in list order, line `i` built from error `i` |
| `EfeResult.LinesOf` | Result.cs:91-94 | one line per error, in list order, line `i` carrying error `i`'s message, code and target |
| `EfeResult.LogErrors` | Result.cs:87-96 | emits exactly the lines of the error list, one per error and in order, when the envelope failed and has a list; emits nothing when it succeeded or the list is absent |
| `EfeResult.ReportOfSucceed` | Result.cs:87-96 | a successful envelope from `Succeed` emits nothing |
| `EfeResult.ReportOfFailure` | Result.cs:87-96 | `Failure(c, ds)` emits exactly `|ds|` lines, line `i` holding `ds[i]`'s message, code and target |

## Left out

- Console output and the text format of each line (`Error: …, Code: …, Target: …`). `LogErrors` returns the lines as `(message, code, target)` records.
- JSON serialisation itself. Only the `[JsonIgnore]` on `StatusCode` is modelled, as the projection `Serialized`.
- Mutation through the public setters of `Result<T>` and `ErrorDetail` after construction. The model is the state at construction time.
- Aliasing in the list constructor. It stores the caller's `List` by reference, so later changes to that list would show in the envelope. The model copies the list as a value. The factories copy with `ToList`, so the model matches them exactly.
- Reference identity of `ErrorDetail`. The C# class compares by reference; the model compares by value.
- Nullable-reference details. A `null` argument to the list constructor, and `default(T)` standing in for absent data, are not modelled. `None` marks an absent property. `LogErrors` still takes any envelope, including one with no list.
