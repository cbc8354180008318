/**
 * The parts of the JavaScript runtime that the modelled code depends on:
 * optional values, values thrown by foreign code, and the outcome of a
 * `fetch` request. The network itself is not modelled: an operation that
 * issues requests receives a `Network`, the outcome of its k-th request.
 */
module JsRuntime {

  /** A value that may be `undefined`/`null`. */
  datatype Option<+T> = None | Some(value: T)

  /** A computation that either returns a value or throws. */
  datatype Result<+T, +E> = Ok(value: T) | Err(error: E)

  newtype byte = x: int | 0 <= x < 256

  /**
   * A thrown value: an `Error` object (or subclass) with its `message`,
   * or some other value, for which `e instanceof Error` is false.
   */
  datatype Fault = ErrorObject(message: string) | NonErrorValue

  /** `e instanceof Error ? e.message : fallback` */
  function MessageOr(f: Fault, fallback: string): (m: string)
    ensures f.ErrorObject? ==> m == f.message
    ensures f.NonErrorValue? ==> m == fallback
  {
    match f
    case ErrorObject(msg) => msg
    case NonErrorValue => fallback
  }

  /**
   * A response as `fetch` resolves it. `body` is what reading the body
   * (`arrayBuffer()`, `text()` or `json()`) yields: the value, or the fault
   * that reading it throws.
   */
  datatype HttpResponse<+B> = HttpResponse(status: int, statusText: string, body: Result<B, Fault>)
  {
    /** `response.ok`: the status is in the range 200-299. */
    predicate Ok() {
      200 <= status <= 299
    }
  }

  /** `fetch` either resolves with a response or rejects. */
  datatype FetchOutcome<+B> = Responded(response: HttpResponse<B>) | Rejected(fault: Fault)

  /** The outcome of the k-th request an operation issues. */
  type Network<B> = nat -> FetchOutcome<B>

  /** A fetch that resolved with an ok status. */
  predicate Succeeded<B>(o: FetchOutcome<B>) {
    o.Responded? && o.response.Ok()
  }

  /** JavaScript truthiness of an optional string: defined and not "". */
  predicate Truthy(s: Option<string>) {
    s.Some? && s.value != ""
  }
}
