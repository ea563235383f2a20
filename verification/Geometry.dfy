/**
 Where and which way a straight GPS step crosses a timing line
 (`src/timing/timing_core.py`, `segment_intersection`).
 */
module Geometry {
  import opened Basics

  datatype Vec = Vec(x: real, y: real) {
    function Minus(o: Vec): Vec { Vec(x - o.x, y - o.y) }
    function Plus(o: Vec): Vec { Vec(x + o.x, y + o.y) }
    function Times(k: real): Vec { Vec(k * x, k * y) }
    function Cross(o: Vec): real { x * o.y - y * o.x }
  }

  /** `t`: fraction along the first segment; `cross`: its sign is the direction of the crossing. */
  datatype Hit = Hit(t: real, cross: real)

  const PARALLEL := 0.000000000001

  /** The point a fraction `t` of the way from `p` to `q`. */
  function Along(p: Vec, q: Vec, t: real): Vec { p.Plus(q.Minus(p).Times(t)) }

  function SegmentIntersection(p1: Vec, p2: Vec, p3: Vec, p4: Vec): (hit: Option<Hit>)
  {
    var denom := p2.Minus(p1).Cross(p4.Minus(p3));
    if Abs(denom) < PARALLEL then None
    else
      var t := p3.Minus(p1).Cross(p4.Minus(p3)) / denom;
      var u := p3.Minus(p1).Cross(p2.Minus(p1)) / denom;
      if 0.0 <= t <= 1.0 && 0.0 <= u <= 1.0 then Some(Hit(t, p4.Minus(p3).Cross(p2.Minus(p1))))
      else None
  }

  /** The two segments share the point at fraction `s` of the first and `v` of the second. */
  ghost predicate Meet(p1: Vec, p2: Vec, p3: Vec, p4: Vec, s: real, v: real) {
    0.0 <= s <= 1.0 && 0.0 <= v <= 1.0 && Along(p1, p2, s) == Along(p3, p4, v)
  }

  ghost predicate Parallel(p1: Vec, p2: Vec, p3: Vec, p4: Vec) {
    Abs(p2.Minus(p1).Cross(p4.Minus(p3))) < PARALLEL
  }

  /** Cramer's rule in the plane: `(d x b) a - (d x a) b = (a x b) d`. */
  lemma Cramer(a: Vec, b: Vec, d: Vec)
    ensures a.Times(d.Cross(b)).Minus(b.Times(d.Cross(a))) == d.Times(a.Cross(b))
  {
  }

  lemma ScaleDown(a: Vec, n: real, k: real)
    requires k != 0.0
    ensures a.Times(n / k).Times(k) == a.Times(n)
  {
    assert (n / k) * k == n;
    assert k * ((n / k) * a.x) == ((n / k) * k) * a.x;
    assert k * ((n / k) * a.y) == ((n / k) * k) * a.y;
  }

  lemma CancelScale(a: Vec, b: Vec, k: real)
    requires k != 0.0 && a.Times(k) == b.Times(k)
    ensures a == b
  {
    assert k * (a.x - b.x) == 0.0 && k * (a.y - b.y) == 0.0;
  }

  /** The parameters computed by dividing through put both segments at one point. */
  lemma ComputedPointIsShared(p1: Vec, p2: Vec, p3: Vec, p4: Vec, t: real, u: real)
    requires !Parallel(p1, p2, p3, p4)
    requires t == p3.Minus(p1).Cross(p4.Minus(p3)) / p2.Minus(p1).Cross(p4.Minus(p3))
    requires u == p3.Minus(p1).Cross(p2.Minus(p1)) / p2.Minus(p1).Cross(p4.Minus(p3))
    ensures Along(p1, p2, t) == Along(p3, p4, u)
  {
    var a, b, d := p2.Minus(p1), p4.Minus(p3), p3.Minus(p1);
    var k := a.Cross(b);
    Cramer(a, b, d);
    ScaleDown(a, d.Cross(b), k);
    ScaleDown(b, d.Cross(a), k);
    assert a.Times(t).Minus(b.Times(u)).Times(k) == d.Times(k) by {
      assert a.Times(t).Minus(b.Times(u)).Times(k) == a.Times(t).Times(k).Minus(b.Times(u).Times(k));
    }
    CancelScale(a.Times(t).Minus(b.Times(u)), d, k);
  }

  /** Any shared point has the computed parameters. */
  lemma SharedPointIsComputed(p1: Vec, p2: Vec, p3: Vec, p4: Vec, s: real, v: real)
    requires !Parallel(p1, p2, p3, p4)
    requires Along(p1, p2, s) == Along(p3, p4, v)
    ensures s == p3.Minus(p1).Cross(p4.Minus(p3)) / p2.Minus(p1).Cross(p4.Minus(p3))
    ensures v == p3.Minus(p1).Cross(p2.Minus(p1)) / p2.Minus(p1).Cross(p4.Minus(p3))
  {
    var a, b, d := p2.Minus(p1), p4.Minus(p3), p3.Minus(p1);
    assert d == a.Times(s).Minus(b.Times(v));
    assert d.Cross(b) == s * a.Cross(b) by { CrossOfCombination(a, b, s, v); }
    assert d.Cross(a) == v * a.Cross(b) by { CrossOfCombination(a, b, s, v); }
    assert s * a.Cross(b) / a.Cross(b) == s && v * a.Cross(b) / a.Cross(b) == v;
  }

  lemma CrossOfCombination(a: Vec, b: Vec, s: real, v: real)
    ensures a.Times(s).Minus(b.Times(v)).Cross(b) == s * a.Cross(b)
    ensures a.Times(s).Minus(b.Times(v)).Cross(a) == v * a.Cross(b)
  {
  }

  /**
   Sound and complete: a hit is reported exactly when the segments are not
   parallel (to within the threshold) and share a point; the reported fraction
   is that point's, and the only one.
   */
  lemma IntersectionIsSharedPoint(p1: Vec, p2: Vec, p3: Vec, p4: Vec)
    ensures SegmentIntersection(p1, p2, p3, p4).Some? <==>
            !Parallel(p1, p2, p3, p4) && exists s, v :: Meet(p1, p2, p3, p4, s, v)
    ensures forall s, v :: SegmentIntersection(p1, p2, p3, p4).Some? && Meet(p1, p2, p3, p4, s, v) ==>
            s == SegmentIntersection(p1, p2, p3, p4).value.t
  {
    if !Parallel(p1, p2, p3, p4) {
      var denom := p2.Minus(p1).Cross(p4.Minus(p3));
      var t := p3.Minus(p1).Cross(p4.Minus(p3)) / denom;
      var u := p3.Minus(p1).Cross(p2.Minus(p1)) / denom;
      ComputedPointIsShared(p1, p2, p3, p4, t, u);
      forall s, v | Meet(p1, p2, p3, p4, s, v) ensures s == t && v == u {
        SharedPointIsComputed(p1, p2, p3, p4, s, v);
      }
      if SegmentIntersection(p1, p2, p3, p4).Some? {
        assert Meet(p1, p2, p3, p4, t, u);
      }
    }
  }

  /** Driving the same segment the other way meets the line at `1 - t`, with the opposite, non-zero sign. */
  lemma ReversedMotion(p1: Vec, p2: Vec, p3: Vec, p4: Vec)
    ensures match SegmentIntersection(p1, p2, p3, p4)
            case None => SegmentIntersection(p2, p1, p3, p4).None?
            case Some(hit) => hit.cross != 0.0 && SegmentIntersection(p2, p1, p3, p4) == Some(Hit(1.0 - hit.t, -hit.cross))
  {
    var a, b, d := p2.Minus(p1), p4.Minus(p3), p3.Minus(p1);
    var a', d' := p1.Minus(p2), p3.Minus(p2);
    assert a' == a.Times(-1.0) && d' == d.Minus(a);
    assert a'.Cross(b) == -a.Cross(b) && b.Cross(a') == -b.Cross(a) && b.Cross(a) == -a.Cross(b);
    assert d'.Cross(b) == d.Cross(b) - a.Cross(b);
    assert d'.Cross(a') == -d.Cross(a) by { CrossShift(a, d); }
    if !Parallel(p1, p2, p3, p4) {
      var k := a.Cross(b);
      Complement(d.Cross(b), k);
      Complement(d.Cross(a), k);
    }
  }

  lemma Complement(n: real, k: real)
    requires k != 0.0
    ensures (n - k) / (-k) == 1.0 - n / k
    ensures (-n) / (-k) == n / k
  {
    var q := n / k;
    assert q * k == n;
    assert (1.0 - q) * (-k) == n - k;
    Quotient(n - k, -k, 1.0 - q);
    Quotient(-n, -k, q);
  }

  lemma Quotient(n: real, k: real, q: real)
    requires k != 0.0 && q * k == n
    ensures n / k == q
  {
  }

  lemma CrossShift(a: Vec, d: Vec)
    ensures d.Minus(a).Cross(a.Times(-1.0)) == -d.Cross(a)
  {
  }
}
