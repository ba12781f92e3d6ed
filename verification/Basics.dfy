/** What every part of the store shares: optional values, refusals and the blank check. */
module Basics {

  datatype Option<+T> = None | Some(value: T)

  /** The ways an operation of the store can refuse. */
  datatype Error = NotFound | Conflict | Invalid | Closed | Unavailable

  datatype Outcome = Accepted | Rejected(error: Error)

  /** White space, as far as the blank checks of the store look. */
  predicate Blank(s: string) {
    forall i | 0 <= i < |s| :: s[i] in {' ', '\t', '\n', '\r'}
  }
}
