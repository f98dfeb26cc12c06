/** Vocabulary shared by every module: identifiers, instants, optional values. */
module Common {

  /** Ids, codes and client names are Go strings. */
  type Id = string

  /** An instant, in nanoseconds since Go's zero time. */
  type Time = int

  /** The zero `time.Time`, used for "never". */
  const ZERO_TIME: Time := 0

  const SECOND: Time := 1_000_000_000
  const MINUTE: Time := 60 * SECOND
  const HOUR: Time := 60 * MINUTE

  datatype Option<+T> = None | Some(value: T)

  datatype Result<+T, +E> = Ok(value: T) | Err(error: E)

  /** Every scope (or other string) of `narrow` occurs in `wide`. */
  predicate Within(narrow: seq<string>, wide: seq<string>) {
    forall s | s in narrow :: s in wide
  }
}
