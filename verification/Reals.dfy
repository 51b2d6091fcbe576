/** Products and quotients of reals. Proofs use the laws of `Value` and leave its body aside. */
module Reals {
  /** A quantity times a price. */
  function Value(quantity: real, price: real): real {
    quantity * price
  }

  lemma ValueAdd(x: real, y: real, p: real)
    ensures Value(x + y, p) == Value(x, p) + Value(y, p)
  {
  }

  lemma ValueNegate(x: real, p: real)
    ensures Value(-x, p) == -Value(x, p)
  {
  }

  lemma ValueZero(p: real)
    ensures Value(0.0, p) == 0.0
  {
  }

  lemma ValueSubtractPrice(x: real, p: real, q: real)
    ensures Value(x, p - q) == Value(x, p) - Value(x, q)
  {
  }

  lemma ValueMonotone(x: real, p: real, q: real)
    requires x >= 0.0 && p <= q
    ensures Value(x, p) <= Value(x, q)
  {
  }

  lemma ValueNonnegative(x: real, p: real)
    requires x >= 0.0 && p >= 0.0
    ensures Value(x, p) >= 0.0
  {
  }

  lemma ValueNonzero(x: real, p: real)
    requires x != 0.0 && p != 0.0
    ensures Value(x, p) != 0.0
  {
    if x > 0.0 && p > 0.0 {
      assert x * p > 0.0;
    } else if x < 0.0 && p < 0.0 {
      assert -x * -p > 0.0;
    } else if x > 0.0 {
      assert x * -p > 0.0;
    } else {
      assert -x * p > 0.0;
    }
  }

  lemma ValueOfQuotient(x: real, y: real)
    requires y != 0.0
    ensures Value(y, x / y) == x
  {
  }

  lemma QuotientBounds(x: real, y: real, lo: real, hi: real)
    requires y > 0.0
    requires Value(y, lo) <= x <= Value(y, hi)
    ensures lo <= x / y <= hi
  {
    ValueOfQuotient(x, y);
    var z := x / y;
    if z > hi {
      ValueSubtractPrice(y, z, hi);
      ValueNonnegative(y, z - hi);
      ValueNonzero(y, z - hi);
    }
    if z < lo {
      ValueSubtractPrice(y, lo, z);
      ValueNonnegative(y, lo - z);
      ValueNonzero(y, lo - z);
    }
  }

  lemma ValueLaws(x: real, y: real, z: real)
    ensures Value(x, Value(y, z)) == Value(Value(x, y), z)
    ensures Value(x, y) == Value(y, x)
    ensures Value(x + y, z) == Value(x, z) + Value(y, z)
  {
  }

  lemma ValueOne(x: real)
    ensures Value(x, 1.0) == x && Value(1.0, x) == x
  {
  }
}
