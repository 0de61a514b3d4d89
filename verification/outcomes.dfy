/** Result types shared by the parsing modules. */
module Outcomes {

  /** The result of one parse step over a token stream with a cursor.

      syn's `parse` functions return `Result<T>`, and a `panic!` inside one
      of them unwinds through every caller instead of being returned.  The
      model keeps the three endings apart:
      - `Ok(value, pos)`: the step succeeded and left the cursor at `pos`;
      - `Err(pos)`: the step returned an error and left the cursor at `pos`;
      - `Panic`: the step aborted the whole macro expansion.
   */
  datatype Outcome<+T> =
    | Ok(value: T, pos: nat)
    | Err(pos: nat)
    | Panic
  {
    /** Applies `f` to a successful value; errors and panics pass through. */
    function Map<U>(f: T -> U): Outcome<U>
    {
      match this
      case Ok(v, p) => Ok(f(v), p)
      case Err(p) => Err(p)
      case Panic => Panic
    }
  }

  /** An optional value, as Rust's `Option`. */
  datatype Option<+T> = None | Some(value: T)
  {
    /** The value, or `default` when there is none (`unwrap_or_else`). */
    function GetOr(default: T): T
    {
      match this
      case Some(v) => v
      case None => default
    }
  }
}
