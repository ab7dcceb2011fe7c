/**
 * The force terms of one step of the spring embedder in SpringLayout.layout():
 * the spring pull of each predecessor and the electrical repulsion of every
 * other node. Coordinates are mathematical reals; Math.sqrt is the parameter
 * `sqrt`, which callers must supply as an exact square root (IsSqrt).
 */
module Forces {

  /** A force or a displacement in the plane. */
  datatype Vec = Vec(x: real, y: real)

  const Zero: Vec := Vec(0.0, 0.0)

  function Add(a: Vec, b: Vec): Vec { Vec(a.x + b.x, a.y + b.y) }

  function Sub(a: Vec, b: Vec): Vec { Vec(a.x - b.x, a.y - b.y) }

  /** The spring stiffness k1 of layout(). */
  const K1: real := 1.0
  /** The electrical repulsion constant k2 of layout(). */
  const K2: real := 10000.0
  /** Distance substituted for a zero spring distance. */
  const Epsilon: real := 0.0001

  /** The square a * a, as the distance computations of layout() use it. */
  function Sq(a: real): real { a * a }

  /** `sqrt` returns the non-negative square root of every non-negative real. */
  ghost predicate IsSqrt(sqrt: real -> real)
  {
    forall x: real :: 0.0 <= x ==> 0.0 <= sqrt(x) && Sq(sqrt(x)) == x
  }

  function Min(a: real, b: real): real { if a <= b then a else b }

  function Max(a: real, b: real): real { if a >= b then a else b }

  /**
   * Math.max(lo, Math.min(hi, v)), the clamp layout() applies to forces,
   * offsets and positions. When the interval is empty the lower bound wins.
   */
  function Clamp(lo: real, hi: real, v: real): (r: real)
    ensures lo <= r
    ensures lo <= hi ==> r <= hi
    ensures lo <= v <= hi ==> r == v
    ensures v < lo || hi < lo ==> r == lo
    ensures lo <= hi < v ==> r == hi
  {
    Max(lo, Min(hi, v))
  }

  /** Clamping into an interval never moves a value away from a point inside it. */
  lemma ClampTowards(lo: real, hi: real, v: real, p: real)
    requires lo <= p <= hi
    ensures p <= v ==> p <= Clamp(lo, hi, v) <= v
    ensures v <= p ==> v <= Clamp(lo, hi, v) <= p
  {
  }

  /** A square is non-negative, and zero exactly for zero. */
  lemma SquarePositive(a: real)
    ensures 0.0 <= Sq(a)
    ensures a != 0.0 ==> 0.0 < Sq(a)
    ensures a == 0.0 ==> Sq(a) == 0.0
  {
    if a > 0.0 {
      calc { Sq(a); == a * a; > 0.0; }
    } else if a < 0.0 {
      calc { Sq(a); == (-a) * (-a); > 0.0; }
    }
  }

  /** A sum of two squares is non-negative, and zero exactly when both are. */
  lemma SquareSum(dx: real, dy: real)
    ensures 0.0 <= Sq(dx) + Sq(dy)
    ensures Sq(dx) + Sq(dy) == 0.0 <==> dx == 0.0 && dy == 0.0
  {
    SquarePositive(dx);
    SquarePositive(dy);
  }

  /** Scaling a vector component by c and multiplying by the component keeps the sign of c. */
  lemma SignOfScaledSquare(c: real, a: real)
    ensures 0.0 <= c ==> 0.0 <= (c * a) * a
    ensures c <= 0.0 ==> (c * a) * a <= 0.0
  {
    SquarePositive(a);
    assert (c * a) * a == c * Sq(a);
  }

  /** Squaring is strictly increasing on the non-negative reals. */
  lemma SquareLess(s: real, r: real)
    requires 0.0 <= s < r
    ensures Sq(s) < Sq(r)
  {
    calc {
      Sq(s);
    == s * s;
    <= s * r;
    < r * r;
    == Sq(r);
    }
  }

  /** What IsSqrt promises at one point q: in particular the root is zero exactly when q is. */
  lemma RootOf(sqrt: real -> real, q: real)
    requires 0.0 <= q
    ensures IsSqrt(sqrt) ==> 0.0 <= sqrt(q) && Sq(sqrt(q)) == q
    ensures IsSqrt(sqrt) ==> (sqrt(q) == 0.0 <==> q == 0.0)
  {
    if IsSqrt(sqrt) {
      SquarePositive(sqrt(q));
    }
  }

  /** An exact square root gives back the non-negative number that was squared. */
  lemma RootOfSquare(sqrt: real -> real, r: real)
    requires IsSqrt(sqrt) && 0.0 <= r
    ensures sqrt(Sq(r)) == r
  {
    SquarePositive(r);
    var s := sqrt(Sq(r));
    RootOf(sqrt, Sq(r));
    if s < r {
      SquareLess(s, r);
    } else if r < s {
      SquareLess(r, s);
    }
  }

  /**
   * The distance between two nodes as the spring term uses it:
   * Math.sqrt(dx * dx + dy * dy), with a zero distance replaced by Epsilon.
   * The replacement happens exactly for coincident nodes.
   */
  function SpringDistance(dx: real, dy: real, sqrt: real -> real): (d: real)
    ensures d != 0.0
    ensures IsSqrt(sqrt) ==> 0.0 < d
    ensures IsSqrt(sqrt) && dx == 0.0 && dy == 0.0 ==> d == Epsilon
    ensures IsSqrt(sqrt) && (dx != 0.0 || dy != 0.0) ==> d == sqrt(Sq(dx) + Sq(dy))
  {
    var q := Sq(dx) + Sq(dy);
    SquareSum(dx, dy);
    RootOf(sqrt, q);
    var s := sqrt(q);
    if s == 0.0 then Epsilon else s
  }

  /**
   * The spring coefficient k1 * (d - edgeLen) / d: positive (attracting)
   * exactly when the pair is farther apart than edgeLen, negative (pushing
   * apart) exactly when it is closer.
   */
  function SpringCoefficient(d: real, edgeLen: real): (c: real)
    requires d != 0.0
    ensures 0.0 < d ==> (0.0 < c <==> edgeLen < d)
    ensures 0.0 < d ==> (c < 0.0 <==> d < edgeLen)
    ensures c == 0.0 <==> d == edgeLen
  {
    K1 * (d - edgeLen) / d
  }

  /**
   * The spring force a predecessor at (xu, yu) exerts on a node at (xv, yv):
   * the spring coefficient times v - u. A coincident predecessor contributes
   * nothing even though its distance is replaced by Epsilon.
   */
  function SpringTerm(xv: real, yv: real, xu: real, yu: real, edgeLen: real, sqrt: real -> real): (f: Vec)
    ensures xv == xu && yv == yu ==> f == Zero
  {
    var dx := xv - xu;
    var dy := yv - yu;
    var c := SpringCoefficient(SpringDistance(dx, dy, sqrt), edgeLen);
    Vec(c * dx, c * dy)
  }

  /**
   * A stretched spring (distance above edgeLen) yields a force along v - u,
   * which layout() subtracts, pulling v toward u; a compressed one yields a
   * force along u - v, pushing v away.
   */
  lemma SpringTermDirection(xv: real, yv: real, xu: real, yu: real, edgeLen: real, sqrt: real -> real)
    requires IsSqrt(sqrt)
    ensures var f := SpringTerm(xv, yv, xu, yu, edgeLen, sqrt);
            var d := SpringDistance(xv - xu, yv - yu, sqrt);
            (edgeLen < d ==> 0.0 <= f.x * (xv - xu) && 0.0 <= f.y * (yv - yu)) &&
            (d < edgeLen ==> f.x * (xv - xu) <= 0.0 && f.y * (yv - yu) <= 0.0)
  {
    var dx := xv - xu;
    var dy := yv - yu;
    var d := SpringDistance(dx, dy, sqrt);
    assert 0.0 < d;
    var c := SpringCoefficient(d, edgeLen);
    assert SpringTerm(xv, yv, xu, yu, edgeLen, sqrt) == Vec(c * dx, c * dy);
    SignOfScaledSquare(c, dx);
    SignOfScaledSquare(c, dy);
  }

  /** The repulsion coefficient k2 / (d * sqrt(d)) for a squared distance d > 0. */
  function RepulsionCoefficient(d: real, sqrt: real -> real): (c: real)
    requires IsSqrt(sqrt) && 0.0 < d
    ensures 0.0 < c
  {
    RootOf(sqrt, d);
    var s := sqrt(d);
    assert 0.0 < d * s;
    K2 / (d * s)
  }

  /**
   * The electrical force a node at (xu, yu) exerts on a node at (xv, yv):
   * k2 / (d * sqrt(d)) times v - u for the squared distance d, and nothing
   * at all when d is zero. It vanishes exactly for coincident nodes.
   */
  function RepulsionTerm(xv: real, yv: real, xu: real, yu: real, sqrt: real -> real): (f: Vec)
    requires IsSqrt(sqrt)
    ensures f == Zero <==> xv == xu && yv == yu
  {
    var dx := xv - xu;
    var dy := yv - yu;
    var d := Sq(dx) + Sq(dy);
    SquareSum(dx, dy);
    if d > 0.0 then
      var c := RepulsionCoefficient(d, sqrt);
      Vec(c * dx, c * dy)
    else
      Zero
  }

  /** Repulsion never points from v toward u: subtracting it pushes v away from u. */
  lemma RepulsionTermDirection(xv: real, yv: real, xu: real, yu: real, sqrt: real -> real)
    requires IsSqrt(sqrt)
    ensures var f := RepulsionTerm(xv, yv, xu, yu, sqrt);
            0.0 <= f.x * (xv - xu) && 0.0 <= f.y * (yv - yu)
  {
    var dx := xv - xu;
    var dy := yv - yu;
    var d := Sq(dx) + Sq(dy);
    SquareSum(dx, dy);
    if d > 0.0 {
      var c := RepulsionCoefficient(d, sqrt);
      SignOfScaledSquare(c, dx);
      SignOfScaledSquare(c, dy);
    }
  }

  /**
   * The spring sum of node i over the predecessor set us, taken in no
   * particular order (a set has none); SpringSumPick shows every order agrees.
   */
  ghost function SpringSum(xs: seq<real>, ys: seq<real>, i: nat, us: set<nat>, edgeLen: real,
                           sqrt: real -> real): Vec
    requires i < |xs| && |ys| == |xs|
    requires forall u :: u in us ==> u < |xs|
    decreases us
  {
    if us == {} then Zero
    else
      var u :| u in us;
      Add(SpringTerm(xs[i], ys[i], xs[u], ys[u], edgeLen, sqrt), SpringSum(xs, ys, i, us - {u}, edgeLen, sqrt))
  }

  /** Any predecessor may be taken first: the sum does not depend on the choice. */
  lemma {:induction false} SpringSumPick(xs: seq<real>, ys: seq<real>, i: nat, us: set<nat>, u: nat,
                                         edgeLen: real, sqrt: real -> real)
    requires i < |xs| && |ys| == |xs|
    requires forall w :: w in us ==> w < |xs|
    requires u in us
    ensures SpringSum(xs, ys, i, us, edgeLen, sqrt) ==
            Add(SpringTerm(xs[i], ys[i], xs[u], ys[u], edgeLen, sqrt), SpringSum(xs, ys, i, us - {u}, edgeLen, sqrt))
    decreases us
  {
    var w :| w in us && SpringSum(xs, ys, i, us, edgeLen, sqrt) ==
      Add(SpringTerm(xs[i], ys[i], xs[w], ys[w], edgeLen, sqrt), SpringSum(xs, ys, i, us - {w}, edgeLen, sqrt));
    if w != u {
      var rest := us - {u} - {w};
      assert us - {w} - {u} == rest;
      SpringSumPick(xs, ys, i, us - {w}, u, edgeLen, sqrt);
      SpringSumPick(xs, ys, i, us - {u}, w, edgeLen, sqrt);
      var tu := SpringTerm(xs[i], ys[i], xs[u], ys[u], edgeLen, sqrt);
      var tw := SpringTerm(xs[i], ys[i], xs[w], ys[w], edgeLen, sqrt);
      var r := SpringSum(xs, ys, i, rest, edgeLen, sqrt);
      assert SpringSum(xs, ys, i, us, edgeLen, sqrt) == Add(tw, Add(tu, r));
      assert SpringSum(xs, ys, i, us - {u}, edgeLen, sqrt) == Add(tw, r);
    }
  }

  /**
   * The spring sum accumulated the way layout() does it, term by term along
   * the order in which the predecessor set's iterator yields the nodes.
   */
  ghost function SpringSumInOrder(xs: seq<real>, ys: seq<real>, i: nat, order: seq<nat>, edgeLen: real,
                                  sqrt: real -> real): Vec
    requires i < |xs| && |ys| == |xs|
    requires forall k :: 0 <= k < |order| ==> order[k] < |xs|
  {
    if order == [] then Zero
    else
      var u := order[|order| - 1];
      Add(SpringSumInOrder(xs, ys, i, order[..|order| - 1], edgeLen, sqrt), SpringTerm(xs[i], ys[i], xs[u], ys[u], edgeLen, sqrt))
  }

  /** Every iteration order without repeats gives the same spring sum. */
  lemma {:induction false} SpringSumAnyOrder(xs: seq<real>, ys: seq<real>, i: nat, order: seq<nat>,
                                             edgeLen: real, sqrt: real -> real)
    requires i < |xs| && |ys| == |xs|
    requires forall k :: 0 <= k < |order| ==> order[k] < |xs|
    requires forall a, b :: 0 <= a < b < |order| ==> order[a] != order[b]
    ensures SpringSumInOrder(xs, ys, i, order, edgeLen, sqrt) == SpringSum(xs, ys, i, (set k | k in order), edgeLen, sqrt)
  {
    if order != [] {
      var n := |order| - 1;
      var u := order[n];
      var front := order[..n];
      SpringSumAnyOrder(xs, ys, i, front, edgeLen, sqrt);
      var us := set k | k in order;
      var fs := set k | k in front;
      assert fs == us - {u} by {
        forall k | k in us - {u} ensures k in fs {
          var a :| 0 <= a < |order| && order[a] == k;
          assert a != n;
          assert front[a] == k;
        }
        forall k | k in fs ensures k in us - {u} {
          var a :| 0 <= a < n && front[a] == k;
          assert order[a] == k;
        }
      }
      SpringSumPick(xs, ys, i, us, u, edgeLen, sqrt);
      var t := SpringTerm(xs[i], ys[i], xs[u], ys[u], edgeLen, sqrt);
      var r := SpringSum(xs, ys, i, fs, edgeLen, sqrt);
      assert SpringSumInOrder(xs, ys, i, order, edgeLen, sqrt) == Add(r, t);
      assert SpringSum(xs, ys, i, us, edgeLen, sqrt) == Add(t, r);
    }
  }

  /**
   * The repulsion on node i from nodes 0 .. k-1, skipping node i itself, in
   * the order of the graph's node iterator.
   */
  function RepulsionSum(xs: seq<real>, ys: seq<real>, i: nat, k: nat, sqrt: real -> real): Vec
    requires IsSqrt(sqrt)
    requires i < |xs| && |ys| == |xs| && k <= |xs|
  {
    if k == 0 then Zero
    else if k - 1 == i then RepulsionSum(xs, ys, i, k - 1, sqrt)
    else Add(RepulsionSum(xs, ys, i, k - 1, sqrt), RepulsionTerm(xs[i], ys[i], xs[k - 1], ys[k - 1], sqrt))
  }

  /** A node coinciding with every other node feels no repulsion at all. */
  lemma {:induction false} RepulsionSumCoincident(xs: seq<real>, ys: seq<real>, i: nat, k: nat, sqrt: real -> real)
    requires IsSqrt(sqrt)
    requires i < |xs| && |ys| == |xs| && k <= |xs|
    requires forall j :: 0 <= j < k ==> xs[j] == xs[i] && ys[j] == ys[i]
    ensures RepulsionSum(xs, ys, i, k, sqrt) == Zero
  {
    if k > 0 {
      RepulsionSumCoincident(xs, ys, i, k - 1, sqrt);
    }
  }

  /**
   * The repulsion on node i from nodes 0 .. k-1 with node i itself included:
   * the plain sum the skip in the loop departs from.
   */
  function RepulsionSumAll(xs: seq<real>, ys: seq<real>, i: nat, k: nat, sqrt: real -> real): Vec
    requires IsSqrt(sqrt)
    requires i < |xs| && |ys| == |xs| && k <= |xs|
  {
    if k == 0 then Zero
    else Add(RepulsionSumAll(xs, ys, i, k - 1, sqrt), RepulsionTerm(xs[i], ys[i], xs[k - 1], ys[k - 1], sqrt))
  }

  /**
   * Skipping node i changes nothing: a node exerts no repulsion on itself, so
   * the skip only avoids the zero distance, never alters the sum.
   */
  lemma {:induction false} RepulsionSkipsOnlySelf(xs: seq<real>, ys: seq<real>, i: nat, k: nat, sqrt: real -> real)
    requires IsSqrt(sqrt)
    requires i < |xs| && |ys| == |xs| && k <= |xs|
    ensures RepulsionSum(xs, ys, i, k, sqrt) == RepulsionSumAll(xs, ys, i, k, sqrt)
  {
    if k > 0 {
      RepulsionSkipsOnlySelf(xs, ys, i, k - 1, sqrt);
      if k - 1 == i {
        assert RepulsionTerm(xs[i], ys[i], xs[i], ys[i], sqrt) == Zero;
      }
    }
  }
}
