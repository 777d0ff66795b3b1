/**
 * What a handler answers: a success with its fields or a failure with an error message,
 * and the response map that carries either, keyed by "response_type". Storage calls
 * either return a value or throw; the handlers' catch clauses turn the exception into a
 * failure message.
 */
module Responses {
  import opened Classes

  /** A handler's outcome, before "response_type" is added. */
  datatype Response = Succeeded(fields: map<string, Value>) | Failed(error: string)

  /**
   * The exceptions the handlers tell apart: IllegalArgumentException, its subclass
   * NumberFormatException, and every other exception.
   */
  datatype Exn = IllegalArgument(message: string) | NumberFormat(message: string) | Unexpected(message: string)

  /** What a storage call did: returned a value or threw. */
  datatype Answer<T> = Returned(value: T) | Threw(exn: Exn)

  const INVALID_INPUT: string := "Invalid input: "
  const UNEXPECTED_ERROR: string := "Unexpected error: "

  /**
   * The usual pair of catch clauses: IllegalArgumentException (which includes
   * NumberFormatException) is invalid input; anything else is unexpected.
   */
  function CaughtMessage(e: Exn): (msg: string)
    ensures e.Unexpected? ==> msg == UNEXPECTED_ERROR + e.message
    ensures !e.Unexpected? ==> msg == INVALID_INPUT + e.message
  {
    match e
    case Unexpected(m) => UNEXPECTED_ERROR + m
    case _ => INVALID_INPUT + e.message
  }

  /** The response map as the handler fills it: "response_type" first, then the fields or the error. */
  function ResponseMap(r: Response): (m: map<string, Value>)
    ensures "response_type" in m
    ensures m["response_type"] == Str("success") <==> r.Succeeded?
    ensures r.Failed? ==> m.Keys == {"response_type", "error"} && m["error"] == Str(r.error)
    ensures r.Succeeded? ==> m.Keys == r.fields.Keys + {"response_type"}
    ensures r.Succeeded? ==> forall k :: k in r.fields && k != "response_type" ==> m[k] == r.fields[k]
  {
    match r
    case Succeeded(fields) => fields["response_type" := Str("success")]
    case Failed(msg) => map["response_type" := Str("failure"), "error" := Str(msg)]
  }

  /** The two puts of every handler's failure branch. */
  method PutFailure(message: string) returns (responseMap: map<string, Value>)
    ensures responseMap == ResponseMap(Failed(message))
  {
    responseMap := map[];
    responseMap := responseMap["response_type" := Str("failure")];
    responseMap := responseMap["error" := Str(message)];
  }
}
