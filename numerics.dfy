/**
 * Real-number helpers shared by every variant of the engine.
 *
 * The source computes square and cube roots with the floating-point library
 * (`Math.pow(x, 0.5)`, `Math.pow(x, 1 / 3)`).  Those are calls into code this
 * model cannot see, so they are passed in as a `Roots` value whose `Valid()`
 * predicate states the only facts the proofs rely on.
 */
module Numerics {

  /** `Math.pow(x, 3)`: the mass of a body of size `x`. */
  function Cube(x: real): real {
    x * x * x
  }

  /** The two root functions the engine calls. */
  datatype Roots = Roots(sqrt: real -> real, cbrt: real -> real) {
    /** Each root inverts its power on non-negative arguments. */
    ghost predicate Valid() {
      && (forall x: real :: 0.0 <= x ==> 0.0 <= sqrt(x) && sqrt(x) * sqrt(x) == x)
      && (forall x: real :: 0.0 <= x ==> 0.0 <= cbrt(x) && Cube(cbrt(x)) == x)
    }
  }

  lemma CubePositive(x: real)
    requires 0.0 < x
    ensures 0.0 < Cube(x)
  {
    assert 0.0 < x * x;
  }

  /** On non-negative reals, squaring preserves and reflects the order. */
  lemma SquareOrder(p: real, q: real)
    requires 0.0 <= p && 0.0 <= q
    ensures p < q <==> p * p < q * q
    ensures p <= q <==> p * p <= q * q
  {
    var pp, pq, qq := p * p, p * q, q * q;
    if p < q {
      assert pp <= pq < qq;
    } else if q < p {
      assert qq <= pq < pp;
    }
  }

  /** On positive numbers the cube is strictly increasing. */
  lemma CubeOrder(p: real, q: real)
    requires 0.0 < p && 0.0 < q
    ensures p < q <==> Cube(p) < Cube(q)
  {
    var pp, qq := p * p, q * q;
    assert 0.0 < pp by { CubePositive(p); }
    assert 0.0 < qq by { CubePositive(q); }
    SquareOrder(p, q);
    if p < q {
      assert pp * q - pp * p == pp * (q - p);
      assert qq * q - pp * q == (qq - pp) * q;
    } else {
      assert qq * p - qq * q == qq * (p - q);
      assert pp * p - qq * p == (pp - qq) * p;
    }
  }

  /** A non-zero factor can be cancelled from both sides of an equation. */
  lemma Cancel(a: real, b: real, c: real)
    requires c != 0.0 && a * c == b * c
    ensures a == b
  {
    assert (a - b) * c == 0.0;
  }

  /** `f·x/d` is `f` times `x/d`. */
  lemma MulDiv(f: real, x: real, d: real)
    requires d != 0.0
    ensures f * x / d == f * (x / d)
  {
    var a := x / d;
    assert a * d == x;
    assert (f * a) * d == f * x;
  }

  /** A positive argument has a positive cube root. */
  lemma CbrtPositive(roots: Roots, x: real)
    requires roots.Valid() && 0.0 < x
    ensures 0.0 < roots.cbrt(x) && Cube(roots.cbrt(x)) == x
  {
    var c := roots.cbrt(x);
    assert 0.0 <= c && Cube(c) == x;
    assert c != 0.0 by { assert Cube(0.0) == 0.0; }
  }

  /** The square root of a positive argument is positive. */
  lemma SqrtPositive(roots: Roots, x: real)
    requires roots.Valid() && 0.0 < x
    ensures 0.0 < roots.sqrt(x) && roots.sqrt(x) * roots.sqrt(x) == x
  {
    var r := roots.sqrt(x);
    assert 0.0 <= r && r * r == x;
    assert r != 0.0 by { assert 0.0 * 0.0 == 0.0; }
  }

  /** `sqrt(x*x) == |x|`: the root is determined by its square. */
  lemma SqrtOfSquare(roots: Roots, x: real)
    requires roots.Valid()
    ensures roots.sqrt(x * x) == if x < 0.0 then -x else x
  {
    var a := if x < 0.0 then -x else x;
    var r := roots.sqrt(x * x);
    assert a * a == x * x;
    assert 0.0 <= r && r * r == a * a;
    SquareOrder(r, a);
    SquareOrder(a, r);
  }

  /** A non-negative `r` whose square is `q` is the square root of `q`. */
  lemma SqrtIs(roots: Roots, q: real, r: real)
    requires roots.Valid() && 0.0 <= r && r * r == q
    ensures roots.sqrt(q) == r
  {
    var s := roots.sqrt(q);
    assert 0.0 <= s && s * s == r * r;
    SquareOrder(s, r);
    SquareOrder(r, s);
  }

  /**
   * The strict distance test `sqrt(d2) < s` of the 2D engines, restated
   * without the root.
   */
  lemma StrictTestSquared(roots: Roots, d2: real, s: real)
    requires roots.Valid() && 0.0 <= d2
    ensures roots.sqrt(d2) < s <==> 0.0 < s && d2 < s * s
  {
    var d := roots.sqrt(d2);
    assert 0.0 <= d && d * d == d2;
    if 0.0 <= s {
      SquareOrder(d, s);
    }
  }

  /**
   * The inclusive distance test `sqrt(d2) <= s` of the 3D engine, restated
   * without the root.
   */
  lemma InclusiveTestSquared(roots: Roots, d2: real, s: real)
    requires roots.Valid() && 0.0 <= d2
    ensures roots.sqrt(d2) <= s <==> 0.0 <= s && d2 <= s * s
  {
    var d := roots.sqrt(d2);
    assert 0.0 <= d && d * d == d2;
    if 0.0 <= s {
      SquareOrder(d, s);
    }
  }
}
