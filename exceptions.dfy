/**
 * The exception hierarchy of the tool (`AICodeReviewError` and its
 * subclasses) together with the few Python built-in exceptions the modelled
 * code raises or catches.  Each constructor keeps the arguments it was given;
 * `Message` is `str(e)` and `ExitCode` the `exit_code` attribute.
 */
module Exceptions {
  import opened Wrappers
  import opened Strings

  datatype Error =
    | AppError(msg: string, code: int)
    | ConfigurationError(msg: string)
    | GitError(msg: string, command: Option<string>)
    | BedrockError(msg: string, serviceError: Option<string>)
    | NetworkError(msg: string, url: Option<string>)
    | ValidationError(msg: string, field: Option<string>)
    | UserAbortError(msg: string)
    | TimeoutError(msg: string, timeoutSeconds: Option<int>)
    /** `ValueError`, `TypeError`, `AttributeError`, `IndexError` and the like. */
    | BuiltinError(kind: string, msg: string)

  const DefaultAbortMessage := "Operation aborted by user"

  /** `UserAbortError()` with its default message. */
  function UserAbort(): (e: Error)
    ensures e.UserAbortError? && Message(e) == DefaultAbortMessage
  {
    UserAbortError(DefaultAbortMessage)
  }

  /** The `AttributeError` Python raises for `obj.attr` when the type named `typeName` has no attribute `attr`. */
  function NoAttribute(typeName: string, attr: string): (e: Error)
    ensures e.BuiltinError? && e.kind == "AttributeError"
  {
    BuiltinError("AttributeError", "'" + typeName + "' object has no attribute '" + attr + "'")
  }

  /** Python truthiness of an optional string argument (`if command:`). */
  predicate Given(o: Option<string>) {
    o.Some? && o.value != []
  }

  /** The text a message-carrying exception places in front of the caller's message. */
  function Prefix(e: Error): string {
    match e
    case AppError(_, _) => ""
    case ConfigurationError(_) => "Configuration error: "
    case GitError(_, _) => "Git operation failed: "
    case BedrockError(_, _) => "AWS Bedrock error: "
    case NetworkError(_, _) => "Network error: "
    case ValidationError(_, f) => if Given(f) then "Validation error in " + f.value + ": " else "Validation error: "
    case UserAbortError(_) => ""
    case TimeoutError(_, t) =>
      if t.Some? && t.value != 0 then "Operation timed out after " + IntToString(t.value) + "s: " else "Operation timed out: "
    case BuiltinError(_, _) => ""
  }

  /** The text appended after the caller's message. */
  function Suffix(e: Error): string {
    match e
    case GitError(_, c) => if Given(c) then " (command: " + c.value + ")" else ""
    case BedrockError(_, s) => if Given(s) then " (" + s.value + ")" else ""
    case NetworkError(_, u) => if Given(u) then " (URL: " + u.value + ")" else ""
    case _ => ""
  }

  /** `str(e)` */
  function Message(e: Error): (r: string)
    ensures StartsWith(r, Prefix(e)) && |r| == |Prefix(e)| + |e.msg| + |Suffix(e)|
    ensures r[|Prefix(e)|..|r| - |Suffix(e)|] == e.msg
  {
    Prefix(e) + e.msg + Suffix(e)
  }

  predicate IsAppError(e: Error) {
    !e.BuiltinError?
  }

  /** `e.exit_code`, which only the tool's own exceptions carry. */
  function ExitCode(e: Error): (c: int)
    requires IsAppError(e)
    ensures !e.AppError? ==> 1 <= c <= 6
  {
    match e
    case AppError(_, code) => code
    case ConfigurationError(_) => 3
    case GitError(_, _) => 1
    case BedrockError(_, _) => 2
    case NetworkError(_, _) => 4
    case ValidationError(_, _) => 3
    case UserAbortError(_) => 5
    case TimeoutError(_, _) => 6
  }

  /** For the subclasses, the exit code identifies the failure class; 3 is shared by configuration and validation errors, 1 by git errors and the base default. */
  lemma ExitCodeIdentifiesClass(e: Error)
    requires IsAppError(e) && !e.AppError?
    ensures ExitCode(e) == 2 <==> e.BedrockError?
    ensures ExitCode(e) == 4 <==> e.NetworkError?
    ensures ExitCode(e) == 5 <==> e.UserAbortError?
    ensures ExitCode(e) == 6 <==> e.TimeoutError?
    ensures ExitCode(e) == 3 <==> e.ConfigurationError? || e.ValidationError?
    ensures ExitCode(e) == 1 <==> e.GitError?
  {
  }

  /** The optional detail of git, Bedrock and network errors appears exactly when it is a non-empty string. */
  lemma {:induction false} DetailShownIffGiven(e: Error)
    requires e.GitError? || e.BedrockError? || e.NetworkError?
    ensures var detail := if e.GitError? then e.command else if e.BedrockError? then e.serviceError else e.url;
      Message(e) == Prefix(e) + e.msg <==> !Given(detail)
  {
    var detail := if e.GitError? then e.command else if e.BedrockError? then e.serviceError else e.url;
    if Given(detail) {
      assert |Message(e)| > |Prefix(e) + e.msg|;
    }
  }

  /** A timeout of 0 seconds reads like a missing one. */
  lemma ZeroTimeoutIsAbsent(m: string)
    ensures Message(TimeoutError(m, Some(0))) == Message(TimeoutError(m, None)) == "Operation timed out: " + m
  {
  }
}
