/** The numerical library the source calls into, left uninterpreted.

    `sin`, `cos`, `tan` and the constant `pi` are supplied by the caller as one
    `Trig` record; nothing about them is assumed except the facts stated by the
    predicates below, which appear as preconditions of the lemmas that need them. */
module Trigonometry {

  datatype Trig = Trig(sin: real -> real, cos: real -> real, tan: real -> real, pi: real)

  /** sin(0) = 0 and cos(0) = 1. */
  predicate ValuesAtZero(t: Trig)
  {
    t.sin(0.0) == 0.0 && t.cos(0.0) == 1.0
  }

  /** sin(x)^2 + cos(x)^2 = 1 for every x. */
  ghost predicate Pythagorean(t: Trig)
  {
    forall x: real :: t.sin(x) * t.sin(x) + t.cos(x) * t.cos(x) == 1.0
  }
}

/** The outcome of an operation that the source lets raise an exception. */
module Results {

  datatype Result<+T, +E> = Success(value: T) | Failure(error: E)
}
