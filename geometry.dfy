/** Points in normalised image coordinates and the vector arithmetic the
    gesture pipeline performs on them (numpy element-wise operations on
    2-vectors, with `real` standing for the floating-point values). */
module Geometry {

  /** A landmark position or a displacement, `(x, y)`. */
  datatype Point = Point(x: real, y: real)

  const Origin := Point(0.0, 0.0)

  /** `p - q`, component by component. */
  function Sub(p: Point, q: Point): Point
  {
    Point(p.x - q.x, p.y - q.y)
  }

  /** `c * p`, component by component. */
  function Scale(p: Point, c: real): Point
  {
    Point(c * p.x, c * p.y)
  }

  /** `(a + b) / 2`, component by component. */
  function Average(a: Point, b: Point): Point
  {
    Point((a.x + b.x) / 2.0, (a.y + b.y) / 2.0)
  }

  function Abs(r: real): (a: real)
    ensures a >= 0.0 && (a == r || a == -r)
  {
    if r < 0.0 then -r else r
  }

  /** `a ** 2`. */
  function Sq(a: real): real
  {
    a * a
  }

  /** A square is never negative, and it is zero only for zero. */
  lemma SqPositive(a: real)
    ensures Sq(a) >= 0.0
    ensures a != 0.0 ==> Sq(a) > 0.0
  {
    if a < 0.0 {
      calc {
        Sq(a);
      ==
        (-a) * (-a);
      >
        0.0;
      }
    } else if a > 0.0 {
      calc {
        Sq(a);
      ==
        a * a;
      >
        0.0;
      }
    }
  }

  /** Sum of the squared components, `np.sum(v ** 2)` for a 2-vector. */
  function SqNorm(v: Point): real
  {
    Sq(v.x) + Sq(v.y)
  }

  /** A squared length is never negative and vanishes only on the zero vector. */
  lemma SqNormPositive(v: Point)
    ensures SqNorm(v) >= 0.0
    ensures v != Origin ==> SqNorm(v) > 0.0
  {
    SqPositive(v.x);
    SqPositive(v.y);
    if v.x == 0.0 && v.y == 0.0 {
      assert v == Origin;
    }
  }

  /** Squared distance `|p - q| ** 2` between two points. */
  function DistSq(p: Point, q: Point): real
  {
    SqNorm(Sub(p, q))
  }

  /** The squared distance is never negative, and is positive between distinct points. */
  lemma DistSqPositive(p: Point, q: Point)
    ensures DistSq(p, q) >= 0.0
    ensures p != q ==> DistSq(p, q) > 0.0
  {
    SqNormPositive(Sub(p, q));
    SubIsOriginIff(p, q);
  }

  /** The squared distance vanishes exactly between equal points. */
  lemma DistSqZeroIff(p: Point, q: Point)
    ensures DistSq(p, q) == 0.0 <==> p == q
  {
    DistSqPositive(p, q);
    if p == q {
      assert Sub(p, q) == Origin;
      assert DistSq(p, q) == Sq(0.0) + Sq(0.0);
    }
  }

  /** Two points coincide exactly when their difference is the zero vector. */
  lemma SubIsOriginIff(p: Point, q: Point)
    ensures Sub(p, q) == Origin <==> p == q
  {
    if Sub(p, q) == Origin {
      assert p.x == q.x && p.y == q.y;
    }
  }

  /** Scaling both points by `c` multiplies their squared distance by `c ** 2`. */
  lemma ScaleDistSq(p: Point, q: Point, c: real)
    ensures DistSq(Scale(p, c), Scale(q, c)) == Sq(c) * DistSq(p, q)
  {
    var d := Sub(p, q);
    assert Sub(Scale(p, c), Scale(q, c)) == Scale(d, c);
    assert Sq(c * d.x) == Sq(c) * Sq(d.x);
    assert Sq(c * d.y) == Sq(c) * Sq(d.y);
  }

  /** Multiplying both sides of `<` by a positive factor keeps the comparison. */
  lemma MulPositiveKeepsLess(k: real, a: real, b: real, ka: real, kb: real)
    requires k > 0.0 && ka == k * a && kb == k * b
    ensures ka < kb <==> a < b
  {
    assert kb - ka == k * (b - a);
  }

  /** `norm` is the Euclidean length of a vector (what `np.linalg.norm`
      computes): non-negative, and its square is the squared length. */
  ghost predicate IsEuclideanNorm(norm: Point -> real)
  {
    forall v :: norm(v) >= 0.0 && Sq(norm(v)) == SqNorm(v)
  }

  /** A Euclidean norm vanishes exactly on the zero vector: the distance
      `norm(q - p)` is zero exactly when the two positions coincide. */
  lemma NormZeroIff(norm: Point -> real, p: Point, q: Point)
    requires IsEuclideanNorm(norm)
    ensures norm(Sub(q, p)) == 0.0 <==> p == q
  {
    var v := Sub(q, p);
    var n := norm(v);
    assert Sq(n) == SqNorm(v);
    SqPositive(n);
    SqNormPositive(v);
    SubIsOriginIff(q, p);
    if p == q {
      assert Sq(n) == 0.0;
    } else {
      assert Sq(n) > 0.0;
    }
  }
}
