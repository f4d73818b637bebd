/** Failure-carrying datatypes shared by the model. */
module Wrappers {

  /** `None` stands for JavaScript's `undefined`/`null` (or any falsy value
      where the source tests truthiness); `Some(v)` for a present value. */
  datatype Option<+T> = None | Some(value: T)

  /** The outcome of a call that may throw: `Err` is the exception. */
  datatype Result<+T, +E> = Ok(value: T) | Err(error: E)
}

/** The action record carried on the action bus. */
module Actions {

  /** `{type, payload}` (the discriminator is the field `kind` here) as built by a facade call: `payload` is the whole
      argument list of that call (src/index.ts:128, 135). */
  datatype Action<P> = Action(kind: string, payload: seq<P>)
}
