/** The optional values the label works with, and the two comparison operators
    the label file declares on optionals (`<` and `<=` on `T?`), specialised to
    the integers they are used on. */
module Optionals {

  datatype Option<+T> = None | Some(value: T) {
    function GetOr(default: T): T {
      match this
      case Some(v) => v
      case None => default
    }
  }

  /** `lhs < rhs` on optionals: both present compares the values, an absent
      left side is below a present right side, everything else is false. */
  function OptLess(lhs: Option<int>, rhs: Option<int>): (b: bool)
    ensures b <==> rhs.Some? && (lhs.None? || lhs.value < rhs.value)
  {
    match (lhs, rhs)
    case (Some(l), Some(r)) => l < r
    case (None, Some(_)) => true
    case _ => false
  }

  /** `lhs <= rhs` on optionals: both present compares the values, otherwise it
      is the negation of `rhs < lhs`. So an absent left side is below
      everything and a present value is never below an absent one. */
  function OptLessEq(lhs: Option<int>, rhs: Option<int>): (b: bool)
    ensures b <==> lhs.None? || (rhs.Some? && lhs.value <= rhs.value)
  {
    match (lhs, rhs)
    case (Some(l), Some(r)) => l <= r
    case _ => !OptLess(rhs, lhs)
  }

  /** The two operators agree with each other everywhere: `<=` is "not
      greater", also in the cases where the source defines `<=` by its own
      match arm rather than through `<`. */
  lemma LessEqIsNotGreater(lhs: Option<int>, rhs: Option<int>)
    ensures OptLessEq(lhs, rhs) <==> !OptLess(rhs, lhs)
    ensures OptLess(lhs, rhs) ==> OptLessEq(lhs, rhs)
  {
  }
}
