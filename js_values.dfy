/** Values as the client code handles them: strings that may be null,
    JavaScript's `||` on them, and the settled outcome of one request. */
module JsValues {

  datatype Option<+T> = None | Some(value: T)

  /** A string value is truthy in JavaScript when it is present and non-empty. */
  predicate Truthy(x: Option<string>) {
    x.Some? && x.value != ""
  }

  /** `x || fallback` for a string that may be null or undefined. */
  function OrElse(x: Option<string>, fallback: string): (r: string)
    ensures Truthy(x) ==> r == x.value
    ensures !Truthy(x) ==> r == fallback
    ensures r != "" <==> Truthy(x) || fallback != ""
  {
    if Truthy(x) then x.value else fallback
  }

  /** How one `fetch` settles, as seen by its handler: a 2xx response with its
      parsed body, a response whose `ok` flag is false, or a rejection (the
      transport failed or the body did not parse) carrying the error's message. */
  datatype Reply<+T> = Ok(body: T) | NotOk | Rejected(reason: string)

  /** The message a handler's `.catch` stores: the handler's own text, thrown
      when `res.ok` is false, or the rejection's message. */
  function FailureMessage<T>(r: Reply<T>, notOkText: string): string
    requires !r.Ok?
  {
    match r
    case NotOk => notOkText
    case Rejected(reason) => reason
  }
}
