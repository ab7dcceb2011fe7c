# Spring-embedder layout step of USE's graph layout

This project models `SpringLayout`, the spring-embedder layout engine of the USE
GUI (after Di Battista et al., *Graph Drawing*, p. 303). A caller calls `layout()`
repeatedly to animate a diagram. Each call runs two passes:

1. **Snapshot pass.** Every node gets a tentative position. That position is
   its current centre minus a net force, and each axis of the force is clamped
   to [-5, 5]. The net force is:
   - the spring sum over the node's predecessors, with coefficient
     `k1 * (d - edgeLen) / d` and a zero distance replaced by 0.0001,
   - minus the electrical repulsion from every other node, with coefficient
     `k2 / (d * sqrt(d))` for the squared distance `d`; coincident nodes are
     skipped.

   All forces are computed from the centres as they were before the call.
2. **Write pass.** A recentering offset moves the centroid of the tentative
   positions toward the middle of the drawing area, clamped per axis to
   [-2.5, 2.5]. Every node is then clamped into the margined area and moved with
   `setCenter`, once per node, in node-list order.

The Dafny project has four modules:

- `Forces`:
  - the clamp `Math.max(lo, Math.min(hi, v))`;
  - the spring and repulsion terms and their sums;
  - `Math.sqrt` as a parameter `sqrt` that satisfies `IsSqrt`.
- `LayoutStep`: one whole `layout()` call as a function `Step` on a `Drawing`,
  which holds the centres, sizes and predecessor sets. It also holds the lemmas
  about `Step`: containment, displacement bounds, smoothness of repeated calls,
  and independence from the edge length when there are no edges.
- `GraphLayout`: the class `SpringLayout`.
  - Its fields are the node centres (`xs`, `ys`, updated in place), the node
    sizes (`ws`, `hs`), the predecessor index sets, the geometry, `edgeLen`,
    and the scratch arrays `xn`/`yn` (`fXn`/`fYn`).
  - `Layout` is proved to leave the centres at exactly `Step` of the centres it
    started from.
  - A ghost log records one `setCenter` per node, in order.
- `Scenarios`:
  - the worked two-node step: A at (0, 0) and B at (300, 0), edge A to B,
    400 by 400 area, margins 20, edge length 120. It ends with A at (25, 25)
    and B at (297.5, 25);
  - the consequence of skipping zero-distance repulsion: coincident nodes
    without edges, all of one size, are never separated.

With no nodes, the source divides the centroid sums by zero. The NaN offset this
produces is never used, because the write loop does not run. The model computes
the offset only when there are nodes, and proves that a call on an empty graph
changes nothing.

## Model

| member | source | states |
|---|---|---|
| Forces.Clamp | use-gui/src/main/java/org/tzi/use/gui/graphlayout/SpringLayout.java:140-141 | The result lies in [lo, hi] when that interval is non-empty and is never below lo. It equals v exactly when v is inside, and otherwise is the nearer bound; an empty interval yields lo. |
| Forces.ClampTowards | use-gui/src/main/java/org/tzi/use/gui/graphlayout/SpringLayout.java:164-165 | Clamping into an interval that contains a point p never moves v farther from p; the result lies between v and p. |
| Forces.SpringDistance | use-gui/src/main/java/org/tzi/use/gui/graphlayout/SpringLayout.java:109-110 | The spring distance is never zero, so the coefficient never divides by zero. It is positive, it is 0.0001 exactly for coincident nodes, and otherwise it is the Euclidean distance. |
| Forces.SpringCoefficient | use-gui/src/main/java/org/tzi/use/gui/graphlayout/SpringLayout.java:111 | The coefficient is positive exactly when the pair is farther apart than edgeLen, negative exactly when it is closer, and zero exactly at edgeLen. |
| Forces.SpringTerm | use-gui/src/main/java/org/tzi/use/gui/graphlayout/SpringLayout.java:105-113 | A coincident predecessor contributes no spring force. |
| Forces.SpringTermDirection | use-gui/src/main/java/org/tzi/use/gui/graphlayout/SpringLayout.java:107-113 | A stretched spring yields a force along v - u, which layout() subtracts, so v is pulled toward u. A compressed spring yields a force along u - v, so v is pushed away. |
| Forces.RepulsionCoefficient | use-gui/src/main/java/org/tzi/use/gui/graphlayout/SpringLayout.java:133 | k2 / (d * sqrt(d)) is positive for every positive squared distance. |
| Forces.RepulsionTerm | use-gui/src/main/java/org/tzi/use/gui/graphlayout/SpringLayout.java:127-136 | The repulsion term is the zero vector exactly when the two nodes coincide, which is the d > 0 skip. |
| Forces.RepulsionTermDirection | use-gui/src/main/java/org/tzi/use/gui/graphlayout/SpringLayout.java:129-135 | The repulsion never points from v toward u, so subtracting it pushes v away from u on each axis. |
| Forces.SpringSum | use-gui/src/main/java/org/tzi/use/gui/graphlayout/SpringLayout.java:99-114 | No contract of its own; defines the spring sum (sumfx1, sumfy1) of node i over its predecessor set, in no particular order. SpringSumPick proves every predecessor may come first, and SpringSumAnyOrder that every iteration order gives this sum. |
| Forces.SpringSumPick | use-gui/src/main/java/org/tzi/use/gui/graphlayout/SpringLayout.java:99-114 | The spring sum over a predecessor set equals any one member's term plus the sum over the rest, so the iterator may start anywhere. |
| Forces.SpringSumInOrder | use-gui/src/main/java/org/tzi/use/gui/graphlayout/SpringLayout.java:99-114 | No contract of its own; defines the spring sum accumulated term by term along one iteration order of the predecessor set. SpringSumAnyOrder proves it equals SpringSum for every repetition-free order. |
| Forces.SpringSumAnyOrder | use-gui/src/main/java/org/tzi/use/gui/graphlayout/SpringLayout.java:99-114 | Accumulating the spring terms along any repetition-free order gives the set's spring sum, so the result does not depend on the iteration order. |
| Forces.RepulsionSum | use-gui/src/main/java/org/tzi/use/gui/graphlayout/SpringLayout.java:119-137 | No contract of its own; defines the repulsion sum (sumfx2, sumfy2) of node i over nodes 0 .. k-1, skipping node i. RepulsionSumCoincident proves it is zero for a node coinciding with all others, and RepulsionSkipsOnlySelf that the skip does not change the sum. |
| Forces.RepulsionSumCoincident | use-gui/src/main/java/org/tzi/use/gui/graphlayout/SpringLayout.java:119-137 | A node that coincides with every node feels no repulsion at all. |
| Forces.RepulsionSkipsOnlySelf | use-gui/src/main/java/org/tzi/use/gui/graphlayout/SpringLayout.java:122-125 | Skipping node v itself gives the same sum as including it, because a node exerts no repulsion on itself. |
| LayoutStep.NetForce | use-gui/src/main/java/org/tzi/use/gui/graphlayout/SpringLayout.java:140-141 | No contract of its own; defines the net force sumfx1 - sumfx2, sumfy1 - sumfy2 of node i. Tentative proves how its clamped value moves the node. |
| LayoutStep.Tentative | use-gui/src/main/java/org/tzi/use/gui/graphlayout/SpringLayout.java:140-141 | A tentative position differs from the node's pre-call centre by at most 5 on each axis. It is exactly the centre minus the net force whenever that force is within 5. |
| LayoutStep.Tentatives | use-gui/src/main/java/org/tzi/use/gui/graphlayout/SpringLayout.java:140-141 | No contract of its own; defines the contents of fXn and fYn after pass 1, one Tentative per node. Tentative proves each entry within 5 of the node's old centre; PlaceTentatively proves pass 1 stores exactly these. |
| LayoutStep.Sum | use-gui/src/main/java/org/tzi/use/gui/graphlayout/SpringLayout.java:144-145 | No contract of its own; defines xc and yc as the front-to-back sums of the tentative coordinates. SumSnoc proves each loop step adds one entry; PlaceTentatively proves its returned xc and yc are these sums. |
| LayoutStep.SumSnoc | use-gui/src/main/java/org/tzi/use/gui/graphlayout/SpringLayout.java:144-145 | Adding entry i to the sum of the first i entries gives the sum of the first i + 1, which is what each iteration of `xc += fXn[i]` does. |
| LayoutStep.Offset | use-gui/src/main/java/org/tzi/use/gui/graphlayout/SpringLayout.java:149-154 | The recentering offset lies in [-2.5, 2.5] and moves the centroid toward the middle of the axis, never past it. It moves the centroid all the way when the middle is within 2.5. |
| LayoutStep.Place | use-gui/src/main/java/org/tzi/use/gui/graphlayout/SpringLayout.java:159-165 | A placed coordinate is at least margin + extent/2, and at most size - margin - extent/2 whenever the node fits. A coordinate already inside a fitting axis is not moved. |
| LayoutStep.PlaceAll | use-gui/src/main/java/org/tzi/use/gui/graphlayout/SpringLayout.java:157-167 | Every node's placed coordinate lies inside the margined axis. |
| LayoutStep.Step | use-gui/src/main/java/org/tzi/use/gui/graphlayout/SpringLayout.java:85-168 | After a call every node lies inside the margined area. Sizes, predecessors and the node count are unchanged, and a graph without nodes is left as it is. |
| LayoutStep.ShiftedDisplacement | use-gui/src/main/java/org/tzi/use/gui/graphlayout/SpringLayout.java:140-154 | Before boundary clamping, no node moves more than 7.5 on either axis. |
| LayoutStep.PlaceAllDisplacement | use-gui/src/main/java/org/tzi/use/gui/graphlayout/SpringLayout.java:164-165 | Boundary clamping keeps a coordinate within 7.5 of an old coordinate that lay inside the axis. |
| LayoutStep.StepDisplacement | use-gui/src/main/java/org/tzi/use/gui/graphlayout/SpringLayout.java:140-165 | A node inside an axis it fits in moves at most 7.5 along that axis in one call, boundary clamping included. |
| LayoutStep.SecondStepIsSmooth | use-gui/src/main/java/org/tzi/use/gui/graphlayout/SpringLayout.java:85-168 | From the second call on, every node that fits the area moves at most 7.5 per axis per call. |
| LayoutStep.EdgelessIgnoresEdgeLen | use-gui/src/main/java/org/tzi/use/gui/graphlayout/SpringLayout.java:111 | The edge length enters only through the springs, so a graph without edges takes the same step for every edge length. |
| GraphLayout.SpringLayout.constructor | use-gui/src/main/java/org/tzi/use/gui/graphlayout/SpringLayout.java:60-72 | The constructor stores the geometry and the node list and allocates fresh scratch arrays of one entry per node. The edge length starts at 120. |
| GraphLayout.SpringLayout.SetEdgeLen | use-gui/src/main/java/org/tzi/use/gui/graphlayout/SpringLayout.java:77-79 | Only the edge length changes, and it becomes len. |
| GraphLayout.SpringLayout.SetCenter | use-gui/src/main/java/org/tzi/use/gui/graphlayout/SpringLayout.java:166 | Only node i's centre changes, and the call is logged. |
| GraphLayout.SpringLayout.SpringForce | use-gui/src/main/java/org/tzi/use/gui/graphlayout/SpringLayout.java:99-114 | The loop over the predecessor set, in whatever order the choice takes, returns the spring sum. |
| GraphLayout.SpringLayout.RepulsionForce | use-gui/src/main/java/org/tzi/use/gui/graphlayout/SpringLayout.java:119-137 | The loop over all nodes, skipping node i, returns the repulsion sum. |
| GraphLayout.SpringLayout.TentativePosition | use-gui/src/main/java/org/tzi/use/gui/graphlayout/SpringLayout.java:93-141 | The body of pass 1 for one node computes its tentative position from the current centres. |
| GraphLayout.SpringLayout.PlaceTentatively | use-gui/src/main/java/org/tzi/use/gui/graphlayout/SpringLayout.java:90-146 | Pass 1 fills fXn/fYn with the tentative positions of the unmodified snapshot and returns their sums xc and yc. |
| GraphLayout.SpringLayout.MoveAll | use-gui/src/main/java/org/tzi/use/gui/graphlayout/SpringLayout.java:157-167 | Pass 2 places every node's shifted tentative position and calls setCenter exactly once per node, in list order. |
| GraphLayout.SpringLayout.Layout | use-gui/src/main/java/org/tzi/use/gui/graphlayout/SpringLayout.java:85-168 | The new centres are exactly Step of the pre-call centres, so forces read only the snapshot. The scratch arrays hold the tentative positions and setCenter runs once per node in order. Sizes, geometry and edge length are untouched, and an empty graph changes nothing. |
| Scenarios.TwoNodeRepulsionTerms | use-gui/src/main/java/org/tzi/use/gui/graphlayout/SpringLayout.java:127-136 | The two nodes 300 apart repel each other with force 1/9. |
| Scenarios.TwoNodeSpringTerm | use-gui/src/main/java/org/tzi/use/gui/graphlayout/SpringLayout.java:105-113 | The spring at distance 300 and edge length 120 pulls with force 180. |
| Scenarios.NodeZeroNetForce | use-gui/src/main/java/org/tzi/use/gui/graphlayout/SpringLayout.java:98-137 | Node A has no predecessor, so its net force is only B's repulsion. |
| Scenarios.NodeOneSpringSum | use-gui/src/main/java/org/tzi/use/gui/graphlayout/SpringLayout.java:99-114 | Node B's spring sum over its one predecessor A is 180. |
| Scenarios.NodeOneRepulsionSum | use-gui/src/main/java/org/tzi/use/gui/graphlayout/SpringLayout.java:119-137 | Node B is repelled by A alone, with 1/9. |
| Scenarios.NodeOneNetForce | use-gui/src/main/java/org/tzi/use/gui/graphlayout/SpringLayout.java:98-137 | Node B's net force is 180 - 1/9. |
| Scenarios.TwoNodeTentatives | use-gui/src/main/java/org/tzi/use/gui/graphlayout/SpringLayout.java:140-141 | A moves 1/9 away from B. B's force is clamped to 5, so B moves 5 toward A. |
| Scenarios.TwoNodeOffsets | use-gui/src/main/java/org/tzi/use/gui/graphlayout/SpringLayout.java:149-154 | The centroid is far from the middle of the area, so both offsets are clamped to 2.5. |
| Scenarios.TwoNodeStep | use-gui/src/main/java/org/tzi/use/gui/graphlayout/SpringLayout.java:85-168 | After one call A is at (25, 25) and B at (297.5, 25): the pair's distance shrinks from 300 and both stay inside [25, 375]. |
| Scenarios.CoincidentTentative | use-gui/src/main/java/org/tzi/use/gui/graphlayout/SpringLayout.java:98-141 | A node without predecessors that coincides with every node feels no force, and pass 1 leaves it where it is. |
| Scenarios.CoincidentTentatives | use-gui/src/main/java/org/tzi/use/gui/graphlayout/SpringLayout.java:92-146 | In a drawing of coincident nodes without edges, pass 1 leaves every node at the shared centre. |
| Scenarios.CoincidentNodesStayTogether | use-gui/src/main/java/org/tzi/use/gui/graphlayout/SpringLayout.java:131-136 | Coincident nodes without edges, all of one size, end each call at one shared centre, so repulsion never separates them. |

## Left out

- IEEE-754 doubles are not modelled: coordinates are reals, with no rounding,
  overflow or NaN. Sums are therefore independent of the order of their terms.
- `Math.sqrt` is a parameter `sqrt` that callers promise is an exact
  non-negative square root (`IsSqrt`). Its precision is not modelled.
- The zero-node case: the source computes a NaN offset from `xc / N` and never
  uses it. The model skips that division.
- `DirectedGraph` and `Layoutable` are not part of this model. The node objects
  are the index positions of parallel arrays, so node objects cannot alias one
  another. `sourceNodeSet` is a set of predecessor indices, and `setCenter` is a
  method on those arrays that also logs the call.
- Edges are fixed for the engine's lifetime (`const preds`), while `layout()`
  re-reads `sourceNodeSet` and the graph's node iterator on every call. The
  model covers repeated calls on an unchanged graph, the use `layout()` is
  documented for; an edge added or removed between calls is not modelled.
- GraphLayout.SpringLayout.RepulsionForce: the model visits nodes in node-list
  order, while the source follows the graph's own iterator. Over the reals the
  sum is the same in any order, and this is not proved.
- The single Java method `layout()` is split into the helper methods
  `TentativePosition`, `PlaceTentatively` and `MoveAll`, which `Layout` calls.
  The statements and their order are unchanged.
- Threading: the engine holds no locks, and callers serialise graph edits.
- Convergence toward the edge length is not modelled, since the source makes no
  promise about it.
- `SelectionObjectTableModel` is not part of this model. It is Swing table glue
  that queries live system state.
