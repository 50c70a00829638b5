/** Failure-carrying values returned by the model's operations. */
module Wrappers {

  /** A value that may be absent; `None` also stands for JavaScript's `undefined`. */
  datatype Option<+T> = None | Some(value: T)

  /** The outcome of an operation that either succeeds or raises an error. */
  datatype Result<+T, +E> = Ok(value: T) | Err(error: E)

  /** First element of `xs` that satisfies `p`, as a repository `findOne` returns it. */
  function Find<T>(xs: seq<T>, p: T -> bool): (r: Option<T>)
    ensures r.Some? ==> r.value in xs && p(r.value)
    ensures r.None? <==> forall x :: x in xs ==> !p(x)
  {
    if |xs| == 0 then None
    else if p(xs[0]) then Some(xs[0])
    else Find(xs[1..], p)
  }

  /** Appending rows after a match does not change which row `findOne` returns. */
  lemma {:induction false} FindAppend<T>(xs: seq<T>, ys: seq<T>, p: T -> bool)
    requires Find(xs, p).Some?
    ensures Find(xs + ys, p) == Find(xs, p)
  {
    if !p(xs[0]) {
      assert (xs + ys)[1..] == xs[1..] + ys;
      FindAppend(xs[1..], ys, p);
    }
  }
}

/** The HTTP errors raised by the core, each with the message text it is raised with. */
module Errors {

  datatype HttpError =
    | NotFound(message: string)    // ResourceNotFound, status 404
    | Conflict(message: string)    // Conflict, status 409
    | BadRequest(message: string)  // BadRequest, status 400, raised by the answer validator
    | InvalidRequest               // status 400, a request that fails its shape rules
}
