/** How a step of the tool ends.  Deno code either returns a value, throws
    (an Error object or, from the shell helpers, the raw stderr text), or ends
    the whole process with `Deno.exit(code)`. */
module Outcomes {

  datatype Option<+T> = None | Some(value: T)

  datatype Effect<+T> = Ok(value: T) | Throw(message: string) | Exit(code: int) {

    predicate IsFailure() {
      !Ok?
    }

    /** A thrown error or an exit propagates unchanged to the caller. */
    function PropagateFailure<U>(): (r: Effect<U>)
      requires !Ok?
      ensures !r.Ok?
      ensures r.Throw? <==> Throw?
      ensures Throw? ==> r.message == message
      ensures Exit? ==> r.Exit? && r.code == code
    {
      if Throw? then Throw(message) else Exit(code)
    }

    function Extract(): T
      requires Ok?
    {
      value
    }
  }

  /** The value `undefined` renders as inside a template literal. */
  function ShowOr(o: Option<string>): string {
    match o
    case Some(s) => s
    case None => "undefined"
  }
}
