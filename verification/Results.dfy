/** Option and Result, standing for the `undefined` and the thrown errors of the source. */
module Results {

  datatype Option<+T> = None | Some(value: T)

  datatype Result<+T, +E> = Ok(value: T) | Err(error: E)

  /** A check that gives its reason when its condition is met. */
  function When<R>(condition: bool, why: R): Option<R> {
    if condition then Some(why) else None
  }

  /** The first of two checks that gives a reason. */
  function Or<R>(first: Option<R>, second: Option<R>): Option<R> {
    if first.Some? then first else second
  }
}
