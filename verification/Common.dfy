/** Result shapes and small functions shared by the modelled components. */
module Common {

  datatype Option<+T> = None | Some(value: T)

  /** An operation either commits with a value or raises one of the source's exceptions. */
  datatype Result<+T, +E> = Ok(value: T) | Err(error: E)

  /** No two positions hold the same value. */
  ghost predicate Distinct<T>(s: seq<T>) {
    forall i, j | 0 <= i < j < |s| :: s[i] != s[j]
  }

  function Max(x: int, y: int): int {
    if x >= y then x else y
  }

  function Pos(x: int): nat {
    if x > 0 then x else 0
  }
}
