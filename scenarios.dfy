/**
 * Whole-step consequences of the layout rules: a worked two-node step, and
 * the fact that coincident unconnected nodes are never pulled apart.
 */
module Scenarios {
  import opened Forces
  import opened LayoutStep
  import opened GraphLayout

  /**
   * Two 10 by 10 nodes 300 apart on the top edge of the area, with one edge
   * from node 0 to node 1 (node 0 is node 1's predecessor).
   */
  function TwoNodes(): (d: Drawing)
    ensures d.Valid()
  {
    Drawing([0.0, 300.0], [0.0, 0.0], [10.0, 10.0], [10.0, 10.0], [{}, {0}])
  }

  /** A 400 by 400 area with margins of 20 on every side. */
  function Canvas(): Area
  {
    Area(400.0, 400.0, 20.0, 20.0)
  }

  /** The two nodes' squared distance 90000 has the root 300. */
  lemma RootOfNinetyThousand(sqrt: real -> real)
    requires IsSqrt(sqrt)
    ensures sqrt(90000.0) == 300.0
  {
    RootOfSquare(sqrt, 300.0);
    assert Sq(300.0) == 90000.0;
  }

  /** The repulsion between the two nodes: 10000 / 90000 / 300 times their difference. */
  lemma TwoNodeRepulsionTerms(sqrt: real -> real)
    requires IsSqrt(sqrt)
    ensures RepulsionTerm(0.0, 0.0, 300.0, 0.0, sqrt) == Vec(-1.0 / 9.0, 0.0)
    ensures RepulsionTerm(300.0, 0.0, 0.0, 0.0, sqrt) == Vec(1.0 / 9.0, 0.0)
  {
    RootOfNinetyThousand(sqrt);
    assert Sq(300.0) == 90000.0 && Sq(-300.0) == 90000.0 && Sq(0.0) == 0.0;
    assert RepulsionCoefficient(90000.0, sqrt) == 1.0 / 2700.0;
  }

  /** The stretched spring from node 0 pulls node 1 with force 0.6 * 300 = 180. */
  lemma TwoNodeSpringTerm(sqrt: real -> real)
    requires IsSqrt(sqrt)
    ensures SpringTerm(300.0, 0.0, 0.0, 0.0, DefaultEdgeLen, sqrt) == Vec(180.0, 0.0)
  {
    RootOfNinetyThousand(sqrt);
    assert Sq(300.0) + Sq(0.0) == 90000.0;
    assert SpringDistance(300.0, 0.0, sqrt) == 300.0;
  }

  /** Node 0 has no predecessor; only node 1's repulsion acts on it. */
  lemma NodeZeroNetForce(sqrt: real -> real)
    requires IsSqrt(sqrt)
    ensures NetForce(TwoNodes(), 0, DefaultEdgeLen, sqrt) == Vec(1.0 / 9.0, 0.0)
  {
    var d := TwoNodes();
    TwoNodeRepulsionTerms(sqrt);
    assert RepulsionSum(d.xs, d.ys, 0, 1, sqrt) == Zero;
    assert RepulsionSum(d.xs, d.ys, 0, 2, sqrt) == Vec(-1.0 / 9.0, 0.0);
  }

  /** The spring sum of node 1 over its one predecessor, node 0. */
  lemma NodeOneSpringSum(sqrt: real -> real)
    requires IsSqrt(sqrt)
    ensures SpringSum(TwoNodes().xs, TwoNodes().ys, 1, {0}, DefaultEdgeLen, sqrt) == Vec(180.0, 0.0)
  {
    var d := TwoNodes();
    TwoNodeSpringTerm(sqrt);
    SpringSumPick(d.xs, d.ys, 1, {0}, 0, DefaultEdgeLen, sqrt);
    assert {0} - {0} == {};
  }

  /** Node 1 is repelled by node 0 alone; the sum skips node 1 itself. */
  lemma NodeOneRepulsionSum(sqrt: real -> real)
    requires IsSqrt(sqrt)
    ensures RepulsionSum(TwoNodes().xs, TwoNodes().ys, 1, 2, sqrt) == Vec(1.0 / 9.0, 0.0)
  {
    var xs, ys := TwoNodes().xs, TwoNodes().ys;
    TwoNodeRepulsionTerms(sqrt);
    var v := RepulsionTerm(300.0, 0.0, 0.0, 0.0, sqrt);
    assert v.x == 1.0 / 9.0 && v.y == 0.0;
    assert RepulsionSum(xs, ys, 1, 2, sqrt) == Add(Zero, v);
  }

  /** Node 1 feels the spring to its predecessor, node 0, and node 0's repulsion. */
  lemma NodeOneNetForce(sqrt: real -> real)
    requires IsSqrt(sqrt)
    ensures NetForce(TwoNodes(), 1, DefaultEdgeLen, sqrt) == Vec(180.0 - 1.0 / 9.0, 0.0)
  {
    NodeOneRepulsionSum(sqrt);
    NodeOneSpringSum(sqrt);
  }

  /** Node 0's force 1/9 is within MaxForce and is applied in full. */
  lemma NodeZeroTentative(sqrt: real -> real)
    requires IsSqrt(sqrt)
    ensures Tentative(TwoNodes(), 0, DefaultEdgeLen, sqrt) == Vec(-1.0 / 9.0, 0.0)
  {
    var d := TwoNodes();
    NodeZeroNetForce(sqrt);
    var f := NetForce(d, 0, DefaultEdgeLen, sqrt);
    assert f.x == 1.0 / 9.0 && f.y == 0.0;
    assert Tentative(d, 0, DefaultEdgeLen, sqrt) == Vec(0.0 - f.x, 0.0 - f.y);
  }

  /** Node 1's force 180 - 1/9 exceeds MaxForce and is clamped to it. */
  lemma NodeOneTentative(sqrt: real -> real)
    requires IsSqrt(sqrt)
    ensures Tentative(TwoNodes(), 1, DefaultEdgeLen, sqrt) == Vec(295.0, 0.0)
  {
    var d := TwoNodes();
    NodeOneNetForce(sqrt);
    var f := NetForce(d, 1, DefaultEdgeLen, sqrt);
    assert f.x == 180.0 - 1.0 / 9.0 && f.y == 0.0;
    assert Clamp(-MaxForce, MaxForce, f.x) == MaxForce;
    assert Tentative(d, 1, DefaultEdgeLen, sqrt) == Vec(300.0 - MaxForce, 0.0 - f.y);
  }

  /**
   * Pass 1 on the two nodes: node 0 only feels node 1's repulsion, 1/9 to the
   * left; node 1's stretched spring (180) minus that repulsion is clamped to
   * MaxForce, so it moves 5 toward node 0.
   */
  lemma TwoNodeTentatives(sqrt: real -> real)
    requires IsSqrt(sqrt)
    ensures Tentatives(TwoNodes(), DefaultEdgeLen, sqrt) == [Vec(-1.0 / 9.0, 0.0), Vec(295.0, 0.0)]
  {
    var t := Tentatives(TwoNodes(), DefaultEdgeLen, sqrt);
    NodeZeroTentative(sqrt);
    NodeOneTentative(sqrt);
    assert t[0] == Tentative(TwoNodes(), 0, DefaultEdgeLen, sqrt);
    assert t[1] == Tentative(TwoNodes(), 1, DefaultEdgeLen, sqrt);
  }

  lemma SumOfTwo(a: real, b: real)
    ensures Sum([a, b]) == a + b
  {
    assert [a, b][..1] == [a];
    assert [a][..0] == [];
    assert Sum([a]) == a;
  }

  /**
   * The centroid of the tentative positions is far from the middle (200, 200)
   * of the area, so both offsets are clamped to MaxOffset.
   */
  lemma TwoNodeOffsets(sqrt: real -> real)
    requires IsSqrt(sqrt)
    ensures var t := Tentatives(TwoNodes(), DefaultEdgeLen, sqrt);
            Offset(Xs(t), 400.0) == MaxOffset && Offset(Ys(t), 400.0) == MaxOffset
  {
    var t := Tentatives(TwoNodes(), DefaultEdgeLen, sqrt);
    TwoNodeTentatives(sqrt);
    assert Xs(t) == [-1.0 / 9.0, 295.0] && Ys(t) == [0.0, 0.0];
    SumOfTwo(-1.0 / 9.0, 295.0);
    SumOfTwo(0.0, 0.0);
  }

  /**
   * One layout() call on the two nodes: the recentering offset is clamped to
   * MaxOffset on both axes, node 0 is clamped onto the margin corner
   * (25, 25), and node 1 ends at 297.5, its tentative 295 plus the offset.
   */
  lemma TwoNodeStep(sqrt: real -> real)
    requires IsSqrt(sqrt)
    ensures Step(TwoNodes(), Canvas(), DefaultEdgeLen, sqrt).xs == [25.0, 297.5]
    ensures Step(TwoNodes(), Canvas(), DefaultEdgeLen, sqrt).ys == [25.0, 25.0]
  {
    var t := Tentatives(TwoNodes(), DefaultEdgeLen, sqrt);
    TwoNodeTentatives(sqrt);
    TwoNodeOffsets(sqrt);
    var r := Step(TwoNodes(), Canvas(), DefaultEdgeLen, sqrt);
    assert r.xs == PlaceAll(20.0, 400.0, [10.0, 10.0], Xs(t), MaxOffset);
    assert r.ys == PlaceAll(20.0, 400.0, [10.0, 10.0], Ys(t), MaxOffset);
    assert Xs(t) == [-1.0 / 9.0, 295.0] && Ys(t) == [0.0, 0.0];
  }

  /**
   * A node without predecessors that coincides with every node feels no
   * force at all, so pass 1 leaves it where it is.
   */
  lemma CoincidentTentative(d: Drawing, edgeLen: real, sqrt: real -> real, j: nat)
    requires d.Valid() && IsSqrt(sqrt) && j < |d.xs|
    requires forall k :: 0 <= k < |d.xs| ==> d.xs[k] == d.xs[j] && d.ys[k] == d.ys[j]
    requires d.preds[j] == {}
    ensures Tentative(d, j, edgeLen, sqrt) == Vec(d.xs[j], d.ys[j])
  {
    RepulsionSumCoincident(d.xs, d.ys, j, |d.xs|, sqrt);
    assert SpringSum(d.xs, d.ys, j, {}, edgeLen, sqrt) == Zero;
    assert NetForce(d, j, edgeLen, sqrt) == Vec(0.0, 0.0);
  }

  /** Pass 1 leaves every node of a coincident, edgeless drawing where it is. */
  lemma CoincidentTentatives(d: Drawing, edgeLen: real, sqrt: real -> real)
    requires d.Valid() && IsSqrt(sqrt) && |d.xs| > 0
    requires forall j :: 0 <= j < |d.xs| ==> d.xs[j] == d.xs[0] && d.ys[j] == d.ys[0]
    requires forall j :: 0 <= j < |d.xs| ==> d.preds[j] == {}
    ensures var t := Tentatives(d, edgeLen, sqrt);
            forall j :: 0 <= j < |d.xs| ==> Xs(t)[j] == d.xs[0] && Ys(t)[j] == d.ys[0]
  {
    var t := Tentatives(d, edgeLen, sqrt);
    forall j | 0 <= j < |d.xs|
      ensures Xs(t)[j] == d.xs[0] && Ys(t)[j] == d.ys[0]
    {
      assert t[j] == Tentative(d, j, edgeLen, sqrt);
      CoincidentTentative(d, edgeLen, sqrt, j);
    }
  }

  /** Placing equal coordinates of equal extents gives equal results. */
  lemma PlaceAllUniform(margin: real, size: real, extents: seq<real>, cs: seq<real>, offset: real)
    requires |extents| == |cs| > 0
    requires forall j :: 0 <= j < |cs| ==> extents[j] == extents[0] && cs[j] == cs[0]
    ensures var r := PlaceAll(margin, size, extents, cs, offset);
            forall j :: 0 <= j < |r| ==> r[j] == r[0]
  {
  }

  /**
   * Nodes of one size that share one centre and have no predecessors stay
   * together for good: the repulsion is skipped at distance zero, so every
   * node gets the same tentative position and the same final centre.
   */
  lemma CoincidentNodesStayTogether(d: Drawing, a: Area, edgeLen: real, sqrt: real -> real)
    requires d.Valid() && IsSqrt(sqrt) && |d.xs| > 0
    requires forall j :: 0 <= j < |d.xs| ==> d.xs[j] == d.xs[0] && d.ys[j] == d.ys[0]
    requires forall j :: 0 <= j < |d.xs| ==> d.preds[j] == {} && d.ws[j] == d.ws[0] && d.hs[j] == d.hs[0]
    ensures var r := Step(d, a, edgeLen, sqrt);
            forall j :: 0 <= j < |r.xs| ==> r.xs[j] == r.xs[0] && r.ys[j] == r.ys[0]
  {
    var t := Tentatives(d, edgeLen, sqrt);
    CoincidentTentatives(d, edgeLen, sqrt);
    PlaceAllUniform(a.marginX, a.width, d.ws, Xs(t), Offset(Xs(t), a.width));
    PlaceAllUniform(a.marginY, a.height, d.hs, Ys(t), Offset(Ys(t), a.height));
  }
}
