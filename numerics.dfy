/** The transcendental functions the core calls (numpy's exp, log, log10,
    sqrt, sin, cos and power) and the physical constants it shares.
    The functions are passed around as one record so that results follow
    from the few facts about them that the formulas rely on. */
module Numerics {
  import opened Common

  /** numpy's `np.pi`. */
  const Pi: real := 3.141592653589793

  datatype Math = Math(
    exp: real -> real,
    log: real -> real,
    log10: real -> real,
    sqrt: real -> real,
    sin: real -> real,
    cos: real -> real,
    pow: (real, real) -> real)
  {
    /** The facts about the transcendentals that the proofs use: exp is
        positive; log has the sign of x - 1, never exceeds x - 1, and
        log(2) is at least 1/2; sqrt is positive on positive numbers; powers
        of positive bases are positive; sin and cos lie in [-1, 1], with
        sin(0) = 0 and cos(0) = 1. */
    ghost predicate Sound() {
      && (forall x :: exp(x) > 0.0)
      && (forall x :: x > 1.0 ==> log(x) > 0.0)
      && (forall x :: 0.0 < x < 1.0 ==> log(x) < 0.0)
      && log(1.0) == 0.0
      && (forall x :: x > 0.0 ==> log(x) <= x - 1.0)
      && log(2.0) >= 0.5
      && (forall x :: x > 0.0 ==> sqrt(x) > 0.0)
      && sqrt(0.0) == 0.0
      && (forall b, e :: b > 0.0 ==> pow(b, e) > 0.0)
      && (forall x :: -1.0 <= sin(x) <= 1.0)
      && (forall x :: -1.0 <= cos(x) <= 1.0)
      && sin(0.0) == 0.0
      && cos(0.0) == 1.0
    }
  }

  /** log has the sign of x - 1 on positive numbers. */
  lemma LogSign(m: Math, x: real)
    requires m.Sound() && x > 0.0
    ensures x > 1.0 ==> m.log(x) > 0.0
    ensures x < 1.0 ==> m.log(x) < 0.0
    ensures x == 1.0 ==> m.log(x) == 0.0
  {
  }

  /** The reciprocal of a number above 1 lies in (0, 1). */
  lemma ReciprocalBelowOne(x: real)
    requires x > 1.0
    ensures 0.0 < 1.0 / x < 1.0
  {
    assert (1.0 / x) * x == 1.0;
  }

  /** The reciprocal of a number in (0, 1) exceeds 1. */
  lemma ReciprocalAboveOne(x: real)
    requires 0.0 < x < 1.0
    ensures 1.0 / x > 1.0
  {
    assert (1.0 / x) * x == 1.0;
  }
}
