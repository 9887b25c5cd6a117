/** Sign and quotient facts about reals, each about one named product so that no proof that uses
    them needs non-linear arithmetic of its own. */
module Reals {
  lemma Positive(x: real, y: real, z: real)
    requires x > 0.0 && y > 0.0 && z == x * y
    ensures z > 0.0
  {
  }

  lemma NonNegative(x: real, y: real, z: real)
    requires x >= 0.0 && y >= 0.0 && z == x * y
    ensures z >= 0.0
  {
  }

  lemma Square(x: real, z: real)
    requires z == x * x
    ensures z >= 0.0 && (z == 0.0 <==> x == 0.0)
  {
    if x > 0.0 {
      Positive(x, x, z);
    } else if x < 0.0 {
      Positive(-x, -x, z);
    }
  }

  /** The defining property of a quotient. */
  lemma Quotient(x: real, d: real, q: real)
    requires d > 0.0
    ensures x / d == q <==> x == q * d
  {
  }

  lemma Distribute(k: real, s: real, t: real, z: real)
    requires z == s + t
    ensures k * z == k * s + k * t
  {
  }

  /** Products keep order. */
  lemma Scale(k: real, x: real, y: real, kx: real, ky: real)
    requires k >= 0.0 && x <= y && kx == k * x && ky == k * y
    ensures kx <= ky
  {
    NonNegative(k, y - x, ky - kx);
  }
}
