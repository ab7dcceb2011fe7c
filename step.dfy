/**
 * One call of SpringLayout.layout() as a function of the state it reads.
 * Pass 1 gives every node a tentative position from the snapshot of all
 * centres; pass 2 shifts all tentative positions by one recentering offset
 * and clamps each node into the margined drawing area.
 */
module LayoutStep {
  import opened Forces

  /** Per-axis bound of the net force applied in one step (pass 1). */
  const MaxForce: real := 5.0
  /** Per-axis bound of the recentering offset (pass 2). */
  const MaxOffset: real := 2.5

  /**
   * What one layout() call reads: the centre and size of every node, in the
   * order of the node list, and the predecessors of each node by index.
   */
  datatype Drawing = Drawing(xs: seq<real>, ys: seq<real>, ws: seq<real>, hs: seq<real>, preds: seq<set<nat>>)
  {
    ghost predicate Valid()
    {
      && |ys| == |xs| && |ws| == |xs| && |hs| == |xs| && |preds| == |xs|
      && forall i, u :: 0 <= i < |preds| && u in preds[i] ==> u < |xs|
    }
  }

  /** The drawing area: its width and height and the margins kept free on each side. */
  datatype Area = Area(width: real, height: real, marginX: real, marginY: real)

  function Abs(r: real): real { if r < 0.0 then -r else r }

  /** The net force on node i: its spring sum minus its repulsion sum. */
  ghost function NetForce(d: Drawing, i: nat, edgeLen: real, sqrt: real -> real): Vec
    requires d.Valid() && IsSqrt(sqrt) && i < |d.xs|
  {
    Sub(SpringSum(d.xs, d.ys, i, d.preds[i], edgeLen, sqrt), RepulsionSum(d.xs, d.ys, i, |d.xs|, sqrt))
  }

  /**
   * The tentative position of node i after pass 1: its old centre minus the
   * net force, each component of the force clamped to MaxForce.
   */
  ghost function Tentative(d: Drawing, i: nat, edgeLen: real, sqrt: real -> real): (p: Vec)
    requires d.Valid() && IsSqrt(sqrt) && i < |d.xs|
    ensures Abs(p.x - d.xs[i]) <= MaxForce && Abs(p.y - d.ys[i]) <= MaxForce
    ensures var f := NetForce(d, i, edgeLen, sqrt);
            (Abs(f.x) <= MaxForce ==> p.x == d.xs[i] - f.x) &&
            (Abs(f.y) <= MaxForce ==> p.y == d.ys[i] - f.y)
  {
    var f := NetForce(d, i, edgeLen, sqrt);
    Vec(d.xs[i] - Clamp(-MaxForce, MaxForce, f.x), d.ys[i] - Clamp(-MaxForce, MaxForce, f.y))
  }

  /** The tentative positions of all nodes, as pass 1 stores them in fXn and fYn. */
  ghost function Tentatives(d: Drawing, edgeLen: real, sqrt: real -> real): seq<Vec>
    requires d.Valid() && IsSqrt(sqrt)
  {
    seq(|d.xs|, i requires 0 <= i < |d.xs| => Tentative(d, i, edgeLen, sqrt))
  }

  function Xs(ps: seq<Vec>): seq<real>
  {
    seq(|ps|, k requires 0 <= k < |ps| => ps[k].x)
  }

  function Ys(ps: seq<Vec>): seq<real>
  {
    seq(|ps|, k requires 0 <= k < |ps| => ps[k].y)
  }

  /** The sum of s, accumulated from the front as layout() accumulates xc and yc. */
  function Sum(s: seq<real>): real
  {
    if s == [] then 0.0 else Sum(s[..|s| - 1]) + s[|s| - 1]
  }

  /** Extending a prefix by one element adds that element to its sum. */
  lemma SumSnoc(s: seq<real>, i: nat)
    requires i < |s|
    ensures Sum(s[..i + 1]) == Sum(s[..i]) + s[i]
  {
    assert s[..i + 1][..i] == s[..i];
  }

  function Mean(s: seq<real>): real
    requires |s| > 0
  {
    Sum(s) / (|s| as real)
  }

  /**
   * The recentering offset along one axis: from the centroid of the
   * tentative coordinates ts toward the middle of an axis of length size,
   * clamped to MaxOffset. It moves the centroid toward the middle, never past
   * it, and all the way when the middle is within MaxOffset.
   */
  function Offset(ts: seq<real>, size: real): (r: real)
    requires |ts| > 0
    ensures Abs(r) <= MaxOffset
    ensures Mean(ts) <= size / 2.0 ==> 0.0 <= r <= size / 2.0 - Mean(ts)
    ensures size / 2.0 <= Mean(ts) ==> size / 2.0 - Mean(ts) <= r <= 0.0
    ensures Abs(size / 2.0 - Mean(ts)) <= MaxOffset ==> Mean(ts) + r == size / 2.0
  {
    Clamp(-MaxOffset, MaxOffset, size / 2.0 - Sum(ts) / (|ts| as real))
  }

  /**
   * A coordinate c of a node with the given extent lies inside the margined
   * axis: never below margin + extent / 2, and not above
   * size - margin - extent / 2 whenever the node fits between the two.
   */
  ghost predicate Inside(c: real, margin: real, size: real, extent: real)
  {
    && margin + extent / 2.0 <= c
    && (margin + extent / 2.0 <= size - margin - extent / 2.0 ==> c <= size - margin - extent / 2.0)
  }

  /** The node fits between the margins of an axis. */
  ghost predicate Fits(margin: real, size: real, extent: real)
  {
    margin + extent / 2.0 <= size - margin - extent / 2.0
  }

  /** Every node of d lies inside the margined area along both axes. */
  ghost predicate Contained(d: Drawing, a: Area)
    requires d.Valid()
  {
    forall i :: 0 <= i < |d.xs| ==>
      Inside(d.xs[i], a.marginX, a.width, d.ws[i]) && Inside(d.ys[i], a.marginY, a.height, d.hs[i])
  }

  /**
   * The final coordinate along one axis of a node with the given extent:
   * Math.max(margin + extent / 2, Math.min(size - margin - extent / 2, v)).
   */
  function Place(margin: real, size: real, extent: real, v: real): (r: real)
    ensures Inside(r, margin, size, extent)
    ensures Inside(v, margin, size, extent) && Fits(margin, size, extent) ==> r == v
  {
    Clamp(margin + extent / 2.0, size - margin - extent / 2.0, v)
  }

  /**
   * One axis of pass 2 for every node: coordinate k of cs shifted by offset
   * and placed along the axis for the node's extent, extents[k].
   */
  function PlaceAll(margin: real, size: real, extents: seq<real>, cs: seq<real>, offset: real): (r: seq<real>)
    requires |extents| == |cs|
    ensures |r| == |cs|
    ensures forall k :: 0 <= k < |cs| ==> Inside(r[k], margin, size, extents[k])
  {
    seq(|cs|, k requires 0 <= k < |cs| => Place(margin, size, extents[k], cs[k] + offset))
  }

  /**
   * The state after one layout() call. Only the centres change; every node
   * ends inside the margined area; on an empty graph nothing changes.
   */
  ghost function Step(d: Drawing, a: Area, edgeLen: real, sqrt: real -> real): (r: Drawing)
    requires d.Valid() && IsSqrt(sqrt)
    ensures r.Valid() && |r.xs| == |d.xs|
    ensures r.ws == d.ws && r.hs == d.hs && r.preds == d.preds
    ensures Contained(r, a)
    ensures |d.xs| == 0 ==> r == d
  {
    if |d.xs| == 0 then d
    else
      var t := Tentatives(d, edgeLen, sqrt);
      d.(xs := PlaceAll(a.marginX, a.width, d.ws, Xs(t), Offset(Xs(t), a.width)),
         ys := PlaceAll(a.marginY, a.height, d.hs, Ys(t), Offset(Ys(t), a.height)))
  }

  /**
   * Placing a coordinate that lies within MaxForce + MaxOffset of an old
   * coordinate inside the axis keeps it within that distance.
   */
  lemma PlaceAllDisplacement(margin: real, size: real, extents: seq<real>, cs: seq<real>, offset: real,
                             c: real, i: nat)
    requires |extents| == |cs| && i < |cs|
    requires Inside(c, margin, size, extents[i]) && Fits(margin, size, extents[i])
    requires Abs(cs[i] + offset - c) <= MaxForce + MaxOffset
    ensures Abs(PlaceAll(margin, size, extents, cs, offset)[i] - c) <= MaxForce + MaxOffset
  {
    ClampTowards(margin + extents[i] / 2.0, size - margin - extents[i] / 2.0, cs[i] + offset, c);
  }

  /**
   * Before boundary clamping a node moves at most MaxForce + MaxOffset along
   * each axis: the clamped net force plus the clamped offset.
   */
  lemma ShiftedDisplacement(d: Drawing, a: Area, edgeLen: real, sqrt: real -> real, i: nat)
    requires d.Valid() && IsSqrt(sqrt) && i < |d.xs|
    ensures var t := Tentatives(d, edgeLen, sqrt);
            && Abs(t[i].x + Offset(Xs(t), a.width) - d.xs[i]) <= MaxForce + MaxOffset
            && Abs(t[i].y + Offset(Ys(t), a.height) - d.ys[i]) <= MaxForce + MaxOffset
  {
    var t := Tentatives(d, edgeLen, sqrt);
    assert t[i] == Tentative(d, i, edgeLen, sqrt);
  }

  /**
   * A node that lies inside an axis it fits in moves at most
   * MaxForce + MaxOffset (7.5) along that axis in one layout() call: the
   * clamped net force plus the clamped offset, and clamping into an interval
   * that holds the old coordinate never increases the distance to it.
   */
  lemma StepDisplacement(d: Drawing, a: Area, edgeLen: real, sqrt: real -> real, i: nat)
    requires d.Valid() && IsSqrt(sqrt) && i < |d.xs|
    ensures Inside(d.xs[i], a.marginX, a.width, d.ws[i]) && Fits(a.marginX, a.width, d.ws[i]) ==>
            Abs(Step(d, a, edgeLen, sqrt).xs[i] - d.xs[i]) <= MaxForce + MaxOffset
    ensures Inside(d.ys[i], a.marginY, a.height, d.hs[i]) && Fits(a.marginY, a.height, d.hs[i]) ==>
            Abs(Step(d, a, edgeLen, sqrt).ys[i] - d.ys[i]) <= MaxForce + MaxOffset
  {
    var t := Tentatives(d, edgeLen, sqrt);
    var ox := Offset(Xs(t), a.width);
    var oy := Offset(Ys(t), a.height);
    ShiftedDisplacement(d, a, edgeLen, sqrt, i);
    if Inside(d.xs[i], a.marginX, a.width, d.ws[i]) && Fits(a.marginX, a.width, d.ws[i]) {
      PlaceAllDisplacement(a.marginX, a.width, d.ws, Xs(t), ox, d.xs[i], i);
    }
    if Inside(d.ys[i], a.marginY, a.height, d.hs[i]) && Fits(a.marginY, a.height, d.hs[i]) {
      PlaceAllDisplacement(a.marginY, a.height, d.hs, Ys(t), oy, d.ys[i], i);
    }
  }

  /**
   * Once a layout() call has run, every later call moves each node that fits
   * the area by at most 7.5 along each axis: the motion stays smooth.
   */
  lemma SecondStepIsSmooth(d: Drawing, a: Area, edgeLen: real, sqrt: real -> real, i: nat)
    requires d.Valid() && IsSqrt(sqrt) && i < |d.xs|
    requires Fits(a.marginX, a.width, d.ws[i]) && Fits(a.marginY, a.height, d.hs[i])
    ensures var r1 := Step(d, a, edgeLen, sqrt);
            var r2 := Step(r1, a, edgeLen, sqrt);
            Abs(r2.xs[i] - r1.xs[i]) <= MaxForce + MaxOffset && Abs(r2.ys[i] - r1.ys[i]) <= MaxForce + MaxOffset
  {
    var r1 := Step(d, a, edgeLen, sqrt);
    StepDisplacement(r1, a, edgeLen, sqrt, i);
  }

  /**
   * The edge length enters a step only through the springs: a graph without
   * edges takes the same step whatever the edge length.
   */
  lemma EdgelessIgnoresEdgeLen(d: Drawing, a: Area, e1: real, e2: real, sqrt: real -> real)
    requires d.Valid() && IsSqrt(sqrt)
    requires forall j :: 0 <= j < |d.preds| ==> d.preds[j] == {}
    ensures Step(d, a, e1, sqrt) == Step(d, a, e2, sqrt)
  {
    var t1 := Tentatives(d, e1, sqrt);
    var t2 := Tentatives(d, e2, sqrt);
    forall j | 0 <= j < |d.xs|
      ensures t1[j] == t2[j]
    {
      assert SpringSum(d.xs, d.ys, j, {}, e1, sqrt) == Zero;
      assert SpringSum(d.xs, d.ys, j, {}, e2, sqrt) == Zero;
      assert t1[j] == Tentative(d, j, e1, sqrt);
      assert t2[j] == Tentative(d, j, e2, sqrt);
    }
    assert t1 == t2;
  }
}
