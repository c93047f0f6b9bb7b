// Optional values and status-carrying results, the Dafny counterparts of the
// firmware's nullable pointers and StatusOr<T> returns.
module Wrappers {

  datatype Option<T> = None | Some(value: T) {
    function GetOr(default: T): T {
      if Some? then value else default
    }
  }

  /** The status codes the modelled firmware returns. */
  datatype Status =
    | InvalidArgument
    | NotFound
    | InternalError
    | Code(code: int)   // an application-defined error code

  datatype Result<T> = Ok(value: T) | Err(status: Status) {
    predicate IsOk() { Ok? }
  }

  /** Appending is associative; stated once for the loops that grow a sequence one element at a time. */
  lemma AppendAssoc<T>(a: seq<T>, x: T, b: seq<T>)
    ensures a + ([x] + b) == (a + [x]) + b
  {
  }
}
