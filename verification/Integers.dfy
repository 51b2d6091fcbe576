/** Products and quotients of integers. Proofs use the laws of `Times` and leave its body aside. */
module Integers {
  function Times(x: int, y: int): (p: int)
    ensures 0 <= x && 0 <= y ==> 0 <= p
  {
    x * y
  }

  function Magnitude(x: int): nat {
    if x < 0 then -x else x
  }

  lemma TimesAssociates(x: int, y: int, z: int)
    ensures Times(x, Times(y, z)) == Times(Times(x, y), z)
  {
  }

  lemma TimesDistributes(x: int, y: int, p: int)
    ensures Times(x + y, p) == Times(x, p) + Times(y, p)
    ensures Times(-x, p) == -Times(x, p)
  {
  }

  lemma TimesBelow(x: nat, y: nat, a: nat, b: nat)
    requires x < a && y <= b && 0 < b
    ensures 0 <= Times(x, y) < Times(a, b)
  {
    assert x * y <= x * b;
    assert x * b < a * b;
  }

  lemma TimesMonotone(n: nat, a: nat, b: nat)
    requires a <= b
    ensures Times(n, a) <= Times(n, b)
  {
  }

  lemma TimesLaws(a: nat, b: nat, c: nat)
    ensures Times(a, b + c) == Times(a, b) + Times(a, c)
    ensures Times(a, Times(b, c)) == Times(Times(a, b), c)
    ensures Times(a, b) == Times(b, a)
    ensures Times(a, 1) == a
  {
  }

  lemma DivMod(v: nat, n: nat)
    requires n > 0
    ensures v == Times(n, v / n) + v % n && v % n < n
  {
  }

  /** With a remainder below `n`, the quotient cannot be larger than any other. */
  lemma QuotientNotAbove(n: nat, q: nat, r: nat, q': nat, r': nat)
    requires Times(n, q) + r == Times(n, q') + r' && r < n
    ensures q' <= q
  {
    hide Times;
    if q + 1 <= q' {
      TimesMonotone(n, q + 1, q');
      TimesLaws(n, q, 1);
    }
  }

  lemma Quotient(v: nat, n: nat, q: nat, r: nat)
    requires n > 0 && v == Times(n, q) + r && r < n
    ensures v / n == q && v % n == r
  {
    hide Times;
    DivMod(v, n);
    QuotientNotAbove(n, q, r, v / n, v % n);
    QuotientNotAbove(n, v / n, v % n, q, r);
  }

  lemma DivideTwice(v: nat, a: nat, b: nat)
    requires a > 0 && b > 0
    ensures Times(a, b) > 0 && v / Times(a, b) == (v / a) / b
  {
    hide Times;
    var q, r := v / a, v % a;
    var s, t := q / b, q % b;
    DivMod(v, a);
    DivMod(q, b);
    TimesLaws(a, Times(b, s), t);
    TimesLaws(a, b, s);
    TimesMonotone(a, t + 1, b);
    TimesMonotone(a, 1, b);
    TimesLaws(a, t, 1);
    Quotient(v, Times(a, b), s, Times(a, t) + r);
  }

  lemma TopBelow(n: nat, top: nat, rest: nat, limit: nat)
    requires Times(n, top) + rest < Times(n, limit)
    ensures top < limit
  {
    hide Times;
    if limit <= top {
      TimesMonotone(n, limit, top);
    }
  }

  lemma LexicographicParts(n: nat, a: nat, b: nat, x: nat, y: nat, u: nat, v: nat)
    requires x == Times(n, a) + u && y == Times(n, b) + v && u < n && v < n
    ensures x <= y <==> a < b || (a == b && u <= v)
  {
    hide Times;
    if a < b {
      TimesMonotone(n, a + 1, b);
      TimesLaws(n, a, 1);
    } else if b < a {
      TimesMonotone(n, b + 1, a);
      TimesLaws(n, b, 1);
    }
  }

  lemma TimesNegated(x: int, y: int)
    ensures -Times(x, y) == Times(x, -y)
  {
  }

  lemma TimesDistributesLeft(x: int, y: int, z: int)
    ensures Times(x, y + z) == Times(x, y) + Times(x, z)
  {
  }

  lemma TimesOne(x: int)
    ensures Times(x, 1) == x && Times(1, x) == x
  {
  }

  lemma TimesSigned(x: nat, y: int)
    ensures Magnitude(Times(x, y)) == Times(x, Magnitude(y))
  {
  }

  lemma TimesGrows(x: int, p: nat)
    requires x >= 1
    ensures Times(x, p) >= p
  {
    assert (x - 1) * p >= 0;
  }

  lemma TimesOrders(x: int, y: int, p: nat)
    requires p >= 1
    ensures Times(x, p) == Times(y, p) <==> x == y
    ensures Times(x, p) <= Times(y, p) <==> x <= y
  {
    hide Times;
    if x < y {
      TimesDistributes(x, y - x, p);
      TimesGrows(y - x, p);
    } else if y < x {
      TimesDistributes(y, x - y, p);
      TimesGrows(x - y, p);
    }
  }
}
