/**
 * How a gin middleware hands on a request. `Context.Next` runs the handlers
 * after the current one; a middleware that returns without calling `Next` or
 * `Abort` still lets gin's dispatch loop go on to the next handler, and only
 * `Abort` stops the chain. Gin itself is not part of this model: this is the
 * part of its contract the middleware relies on.
 */
module Chain {
  import opened Errors

  /** How a middleware leaves: through `c.Next()`, after `c.Abort()`, or by a bare `return`. */
  datatype Exit = CallsNext | Aborts | Returns

  /** The route handler (and the middleware after this one) will still run. */
  predicate LaterHandlersRun(e: Exit) {
    e != Aborts
  }

  /**
   * A middleware's decision: let the request through, answer it with an
   * error, or panic. A panic is caught by `gin.Recovery` (registered first in
   * routes/routes.go), which answers 500 and aborts the chain.
   */
  datatype Verdict = Proceed | Halt(rejection: Rejection) | Panics

  /** How a middleware that aborts on every error leaves. */
  function ExitOf(verdict: Verdict): (e: Exit)
    ensures LaterHandlersRun(e) <==> verdict == Proceed
    ensures verdict.Halt? || verdict.Panics? ==> e == Aborts
  {
    if verdict == Proceed then CallsNext else Aborts
  }
}
