/** The floating-point primitives the heat-balance code borrows from the
    maths libraries (`exp`, `sqrt`, fractional powers, Python's `round`).
    They stay abstract: the model is parameterised by them and assumes only
    the few facts listed in `Sound`. */
module Numerics {

  datatype Numerics = Numerics(
    exp: real -> real,             // math.exp / np.exp
    sqrt: real -> real,            // np.sqrt
    root4: real -> real,           // x ** 0.25 on a non-negative base
    pow: (real, real) -> real,     // pow(x, y) on a positive base
    round: (real, nat) -> real)    // round(x, digits)

  /** The facts about the primitives that the model relies on. */
  ghost predicate Sound(n: Numerics) {
    && n.exp(0.0) == 1.0
    && (forall x :: n.exp(x) > 0.0)
    && (forall x, y :: x < y ==> n.exp(x) < n.exp(y))
    && n.sqrt(0.0) == 0.0
    && (forall x :: x >= 0.0 ==> n.sqrt(x) >= 0.0)
    && (forall x :: x >= 0.0 ==> n.root4(x) >= 0.0)
    && (forall x, y :: x > 0.0 ==> n.pow(x, y) > 0.0)
  }

  /** `exp` maps non-positive arguments into (0, 1]. */
  lemma ExpOfNonPositive(n: Numerics, x: real)
    requires Sound(n)
    requires x <= 0.0
    ensures 0.0 < n.exp(x) <= 1.0
  {
    if x < 0.0 {
      assert n.exp(x) < n.exp(0.0);
    }
  }
}
