/**
 * The layout engine object SpringLayout. The node objects are modelled by
 * parallel arrays: node i (the i-th node of the list the constructor takes
 * from the graph) has its centre at (xs[i], ys[i]) and its size ws[i] by hs[i].
 * The graph's edges are the predecessor index sets preds, and xn and yn are
 * the scratch arrays fXn and fYn.
 */
module GraphLayout {
  import opened Forces
  import opened LayoutStep

  /** The edge length a new engine starts with. */
  const DefaultEdgeLen: real := 120.0

  /** The node indices 0, 1, ..., n - 1 in increasing order. */
  function Indices(n: nat): (s: seq<nat>)
    ensures |s| == n && forall k :: 0 <= k < n ==> s[k] == k
  {
    seq(n, k => k)
  }

  class SpringLayout {
    const xs: array<real>
    const ys: array<real>
    const ws: array<real>
    const hs: array<real>
    const preds: seq<set<nat>>
    const width: real
    const height: real
    const marginX: real
    const marginY: real
    var edgeLen: real
    const xn: array<real>
    const yn: array<real>
    /** The nodes setCenter has been called on, in call order. */
    ghost var setCenterLog: seq<nat>

    /**
     * One array entry per node, predecessors are nodes, and the arrays written
     * by layout() are distinct from each other and from the sizes.
     */
    ghost predicate Valid()
    {
      && ys.Length == xs.Length && ws.Length == xs.Length && hs.Length == xs.Length
      && xn.Length == xs.Length && yn.Length == xs.Length && |preds| == xs.Length
      && (forall i, u :: 0 <= i < |preds| && u in preds[i] ==> u < xs.Length)
      && xs != ys && xn != yn
      && xs !in {xn, yn, ws, hs} && ys !in {xn, yn, ws, hs}
      && xn !in {ws, hs} && yn !in {ws, hs}
    }

    /** The state a layout() call reads. */
    ghost function Snapshot(): (d: Drawing)
      requires Valid()
      reads xs, ys, ws, hs
      ensures d.Valid()
    {
      Drawing(xs[..], ys[..], ws[..], hs[..], preds)
    }

    function Geometry(): Area
    {
      Area(width, height, marginX, marginY)
    }

    /** SpringLayout(g, width, height, marginx, marginy): captures the node list and allocates fXn and fYn. */
    constructor (xs: array<real>, ys: array<real>, ws: array<real>, hs: array<real>, preds: seq<set<nat>>,
                 width: real, height: real, marginX: real, marginY: real)
      requires ys.Length == xs.Length && ws.Length == xs.Length && hs.Length == xs.Length
      requires |preds| == xs.Length
      requires forall i, u :: 0 <= i < |preds| && u in preds[i] ==> u < xs.Length
      requires xs != ys && xs !in {ws, hs} && ys !in {ws, hs}
      ensures Valid()
      ensures this.xs == xs && this.ys == ys && this.ws == ws && this.hs == hs && this.preds == preds
      ensures this.width == width && this.height == height && this.marginX == marginX && this.marginY == marginY
      ensures edgeLen == DefaultEdgeLen
      ensures fresh(xn) && fresh(yn)
      ensures setCenterLog == []
    {
      this.xs := xs;
      this.ys := ys;
      this.ws := ws;
      this.hs := hs;
      this.preds := preds;
      this.width := width;
      this.height := height;
      this.marginX := marginX;
      this.marginY := marginY;
      edgeLen := DefaultEdgeLen;
      xn := new real[xs.Length];
      yn := new real[xs.Length];
      setCenterLog := [];
    }

    /** setEdgeLen(len): replaces the target edge length and nothing else. */
    method SetEdgeLen(len: real)
      modifies this`edgeLen
      ensures edgeLen == len
    {
      edgeLen := len;
    }

    /** setCenter(x, y) on node i: moves that node only, and records the call. */
    method SetCenter(i: nat, x: real, y: real)
      requires Valid() && i < xs.Length
      modifies xs, ys, this`setCenterLog
      ensures xs[..] == old(xs[..])[i := x] && ys[..] == old(ys[..])[i := y]
      ensures setCenterLog == old(setCenterLog) + [i]
    {
      xs[i] := x;
      ys[i] := y;
      setCenterLog := setCenterLog + [i];
    }

    /**
     * The spring sum of node i, taking its predecessors one at a time in
     * whatever order the set's iterator yields them.
     */
    method SpringForce(i: nat, sqrt: real -> real) returns (f: Vec)
      requires Valid() && i < xs.Length
      ensures f == SpringSum(xs[..], ys[..], i, preds[i], edgeLen, sqrt)
    {
      f := Zero;
      var rest := preds[i];
      while rest != {}
        invariant rest <= preds[i]
        invariant Add(f, SpringSum(xs[..], ys[..], i, rest, edgeLen, sqrt)) ==
                  SpringSum(xs[..], ys[..], i, preds[i], edgeLen, sqrt)
        decreases rest
      {
        var u :| u in rest;
        SpringSumPick(xs[..], ys[..], i, rest, u, edgeLen, sqrt);
        f := Add(f, SpringTerm(xs[i], ys[i], xs[u], ys[u], edgeLen, sqrt));
        rest := rest - {u};
      }
    }

    /** The repulsion sum of node i over all nodes of the graph except node i itself. */
    method RepulsionForce(i: nat, sqrt: real -> real) returns (f: Vec)
      requires Valid() && IsSqrt(sqrt) && i < xs.Length
      ensures f == RepulsionSum(xs[..], ys[..], i, xs.Length, sqrt)
    {
      f := Zero;
      var j := 0;
      while j < xs.Length
        invariant j <= xs.Length
        invariant f == RepulsionSum(xs[..], ys[..], i, j, sqrt)
      {
        if j != i {
          f := Add(f, RepulsionTerm(xs[i], ys[i], xs[j], ys[j], sqrt));
        }
        j := j + 1;
      }
    }

    /**
     * The body of pass 1 for node i: its old centre minus its net force
     * (spring sum minus repulsion sum), each component clamped to MaxForce.
     */
    method TentativePosition(i: nat, sqrt: real -> real) returns (p: Vec)
      requires Valid() && IsSqrt(sqrt) && i < xs.Length
      ensures p == Tentatives(Snapshot(), edgeLen, sqrt)[i]
    {
      var spring := SpringForce(i, sqrt);
      var repulsion := RepulsionForce(i, sqrt);
      p := Vec(xs[i] - Clamp(-MaxForce, MaxForce, spring.x - repulsion.x),
               ys[i] - Clamp(-MaxForce, MaxForce, spring.y - repulsion.y));
    }

    /**
     * Pass 1 of layout(): every node's tentative position goes into fXn and
     * fYn, computed from the unmodified centres; xc and yc are the sums of
     * the tentative coordinates.
     */
    method PlaceTentatively(sqrt: real -> real) returns (xc: real, yc: real)
      requires Valid() && IsSqrt(sqrt)
      modifies xn, yn
      ensures xn[..] == Xs(Tentatives(Snapshot(), edgeLen, sqrt))
      ensures yn[..] == Ys(Tentatives(Snapshot(), edgeLen, sqrt))
      ensures xc == Sum(Xs(Tentatives(Snapshot(), edgeLen, sqrt)))
      ensures yc == Sum(Ys(Tentatives(Snapshot(), edgeLen, sqrt)))
    {
      var n := xs.Length;
      ghost var d := Snapshot();
      ghost var t := Tentatives(d, edgeLen, sqrt);
      xc, yc := 0.0, 0.0;
      for i := 0 to n
        invariant d == Snapshot()
        invariant xn[..i] == Xs(t)[..i] && yn[..i] == Ys(t)[..i]
        invariant xc == Sum(Xs(t)[..i]) && yc == Sum(Ys(t)[..i])
      {
        var p := TentativePosition(i, sqrt);
        xn[i] := p.x;
        yn[i] := p.y;
        xc := xc + xn[i];
        yc := yc + yn[i];
        SumSnoc(Xs(t), i);
        SumSnoc(Ys(t), i);
      }
      assert Xs(t)[..n] == Xs(t) && Ys(t)[..n] == Ys(t);
      assert xn[..] == Xs(t) && yn[..] == Ys(t);
    }

    /**
     * Pass 2 of layout(): calls setCenter once on every node, in list order,
     * with its tentative position shifted by (dx, dy) and clamped into the
     * margined area.
     */
    method MoveAll(dx: real, dy: real)
      requires Valid()
      modifies xs, ys, this`setCenterLog
      ensures xs[..] == PlaceAll(marginX, width, ws[..], xn[..], dx)
      ensures ys[..] == PlaceAll(marginY, height, hs[..], yn[..], dy)
      ensures setCenterLog == old(setCenterLog) + Indices(xs.Length)
    {
      for i := 0 to xs.Length
        invariant forall k :: 0 <= k < i ==>
                    xs[k] == Place(marginX, width, ws[k], xn[k] + dx) &&
                    ys[k] == Place(marginY, height, hs[k], yn[k] + dy)
        invariant setCenterLog == old(setCenterLog) + Indices(i)
      {
        var halfWidth := ws[i] / 2.0;
        var halfHeight := hs[i] / 2.0;
        var x := Clamp(marginX + halfWidth, width - marginX - halfWidth, xn[i] + dx);
        var y := Clamp(marginY + halfHeight, height - marginY - halfHeight, yn[i] + dy);
        SetCenter(i, x, y);
        assert Indices(i + 1) == Indices(i) + [i];
      }
      assert xs[..] == PlaceAll(marginX, width, ws[..], xn[..], dx);
      assert ys[..] == PlaceAll(marginY, height, hs[..], yn[..], dy);
    }

    /**
     * layout(): pass 1 stores every node's tentative position, then the
     * clamped recentering offset is computed from their centroid, then pass 2
     * moves every node. The new centres are exactly one Step of the old state.
     */
    method Layout(sqrt: real -> real)
      requires Valid() && IsSqrt(sqrt)
      modifies xs, ys, xn, yn, this`setCenterLog
      ensures Valid()
      ensures Snapshot() == Step(old(Snapshot()), Geometry(), edgeLen, sqrt)
      ensures xn[..] == Xs(Tentatives(old(Snapshot()), edgeLen, sqrt))
      ensures yn[..] == Ys(Tentatives(old(Snapshot()), edgeLen, sqrt))
      ensures setCenterLog == old(setCenterLog) + Indices(xs.Length)
      ensures xs.Length == 0 ==> Snapshot() == old(Snapshot()) && setCenterLog == old(setCenterLog)
    {
      var n := xs.Length;
      ghost var s0 := Snapshot();
      ghost var t := Tentatives(s0, edgeLen, sqrt);
      var xc, yc := PlaceTentatively(sqrt);

      // layout() divides xc and yc by N unguarded; with no nodes the offset
      // is never used, so it is computed only when there are nodes.
      var dx, dy := 0.0, 0.0;
      if n > 0 {
        dx := Clamp(-MaxOffset, MaxOffset, width / 2.0 - xc / (n as real));
        dy := Clamp(-MaxOffset, MaxOffset, height / 2.0 - yc / (n as real));
        assert dx == Offset(Xs(t), width) && dy == Offset(Ys(t), height);
      }

      MoveAll(dx, dy);
    }
  }
}
