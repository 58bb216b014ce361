/** UpdateWettedAreaTotals: folding the wetted area of sub-surfaces, symmetric
    copies and grouped descendants into the rows that represent them. Both
    passes update the rows in place, in index order. */
module WettedArea {
  import opened DragRows
  import opened LineItems

  /** First pass: main-surface row `ri` absorbs the included sub-surface row
      `rj` of its own geometry, or of a geometry grouped into it, when its list
      is not expanded and it is the 0th surface. */
  predicate FoldsSubSurface(veh: Vehicle, ri: Row, rj: Row)
  {
    ri.subSurfID == "" && rj.subSurfID != "" &&
    !veh.expanded(ri.geomID) &&
    (ri.geomID == rj.geomID || ri.geomID == veh.ancestorOf(rj.geomID, rj.ancestorGen)) &&
    veh.included(rj.geomID, rj.subSurfID) &&
    ri.surfNum == 0
  }

  /** Second pass: main-surface row `ri` absorbs main-surface row `rj` of the
      same shape when `ri` is not an expanded list and either `ri` is the 0th
      surface of `rj`'s geometry, or the 0th surface of the ancestor `rj` is
      grouped into (and `rj`'s list is not expanded), or `ri` is a
      custom-geometry row. */
  predicate FoldsSurface(veh: Vehicle, ri: Row, rj: Row)
  {
    ri.subSurfID == "" && rj.subSurfID == "" &&
    ((ri.geomID == rj.geomID && ri.surfNum == 0) ||
     (ri.geomID != rj.geomID && ri.geomID == veh.ancestorOf(rj.geomID, rj.ancestorGen) &&
      ri.surfNum == 0 && !veh.expanded(rj.geomID)) ||
     CustomLabel(ri.rowLabel)) &&
    ri.shapeType == rj.shapeType && !ri.expandedList
  }

  /** Wetted area the first pass adds to row `i` from the rows below `n`. */
  function SubSurfaceSum(veh: Vehicle, rows: seq<Row>, i: nat, n: nat): real
    requires i < |rows| && n <= |rows|
  {
    if n == 0 then 0.0
    else
      SubSurfaceSum(veh, rows, i, n - 1) +
      (if n - 1 != i && FoldsSubSurface(veh, rows[i], rows[n - 1]) then rows[n - 1].swet else 0.0)
  }

  /** Wetted area the second pass adds to row `i` from the rows below `n`:
      a row before `i` gives its total after the pass (`after`), a row after
      `i` gives its total after the first pass (`before`). */
  function SurfaceSum(veh: Vehicle, before: seq<Row>, after: seq<Row>, i: nat, n: nat): real
    requires i < |before| && n <= |before| && |after| == |before|
  {
    if n == 0 then 0.0
    else
      var j := n - 1;
      SurfaceSum(veh, before, after, i, j) +
      (if j != i && FoldsSurface(veh, before[i], before[j]) then (if j < i then after[j].swet else before[j].swet) else 0.0)
  }

  lemma {:induction false} SubSurfaceRowGainsNothing(veh: Vehicle, rows: seq<Row>, i: nat, n: nat)
    requires i < |rows| && n <= |rows| && rows[i].subSurfID != ""
    ensures SubSurfaceSum(veh, rows, i, n) == 0.0
  {
    if n > 0 {
      SubSurfaceRowGainsNothing(veh, rows, i, n - 1);
    }
  }

  lemma {:induction false} SubSurfaceRowGainsNothingLater(veh: Vehicle, before: seq<Row>, after: seq<Row>, i: nat, n: nat)
    requires i < |before| && n <= |before| && |after| == |before| && before[i].subSurfID != ""
    ensures SurfaceSum(veh, before, after, i, n) == 0.0
  {
    if n > 0 {
      SubSurfaceRowGainsNothingLater(veh, before, after, i, n - 1);
    }
  }

  /** The second-pass sum of row `i` reads the updated rows only below `i`. */
  lemma {:induction false} SurfaceSumReadsBelow(veh: Vehicle, before: seq<Row>, a: seq<Row>, b: seq<Row>, i: nat, n: nat)
    requires i < |before| && n <= |before| && |a| == |before| && |b| == |before|
    requires forall k :: 0 <= k < i ==> a[k].swet == b[k].swet
    ensures SurfaceSum(veh, before, a, i, n) == SurfaceSum(veh, before, b, i, n)
  {
    if n > 0 {
      SurfaceSumReadsBelow(veh, before, a, b, i, n - 1);
    }
  }

  /** One row of the first pass: row `i` gains the wetted area of every
      sub-surface row it absorbs; no other row changes. */
  method AbsorbSubSurfaces(veh: Vehicle, rows: seq<Row>, i: nat, cur: seq<Row>) returns (out: seq<Row>)
    requires i < |rows| && |cur| == |rows|
    requires forall k :: 0 <= k < |rows| ==> cur[k] == rows[k].(swet := cur[k].swet)
    requires forall k :: 0 <= k < i ==> cur[k].swet == rows[k].swet + SubSurfaceSum(veh, rows, k, |rows|)
    requires forall k :: i <= k < |rows| ==> cur[k].swet == rows[k].swet
    ensures out == cur[i := rows[i].(swet := rows[i].swet + SubSurfaceSum(veh, rows, i, |rows|))]
  {
    var n := |rows|;
    out := cur;
    var j := 0;
    while j < n
      invariant 0 <= j <= n
      invariant out == cur[i := rows[i].(swet := rows[i].swet + SubSurfaceSum(veh, rows, i, j))]
    {
      if i != j && FoldsSubSurface(veh, out[i], out[j]) {
        assert FoldsSubSurface(veh, rows[i], rows[j]);
        if j < i {
          SubSurfaceRowGainsNothing(veh, rows, j, n);
        }
        assert out[j].swet == rows[j].swet;
        out := out[i := out[i].(swet := out[i].swet + out[j].swet)];
      } else {
        assert !(i != j && FoldsSubSurface(veh, rows[i], rows[j]));
      }
      j := j + 1;
    }
  }

  /** First pass of UpdateWettedAreaTotals: every main-surface row gains the
      wetted area of the sub-surface rows it absorbs. Sub-surface rows are only
      read, so the order of the updates does not matter here. */
  method FoldSubSurfaces(veh: Vehicle, rows: seq<Row>) returns (out: seq<Row>)
    ensures |out| == |rows|
    ensures forall i :: 0 <= i < |rows| ==> out[i] == rows[i].(swet := out[i].swet)
    ensures forall i :: 0 <= i < |rows| ==> out[i].swet == rows[i].swet + SubSurfaceSum(veh, rows, i, |rows|)
  {
    var n := |rows|;
    out := rows;
    var i := 0;
    while i < n
      invariant 0 <= i <= n && |out| == n
      invariant forall k :: 0 <= k < n ==> out[k] == rows[k].(swet := out[k].swet)
      invariant forall k :: 0 <= k < i ==> out[k].swet == rows[k].swet + SubSurfaceSum(veh, rows, k, n)
      invariant forall k :: i <= k < n ==> out[k].swet == rows[k].swet
    {
      out := AbsorbSubSurfaces(veh, rows, i, out);
      i := i + 1;
    }
  }

  /** One row of the second pass: row `i` gains the wetted area of every
      surface it absorbs, reading the rows before it as already updated; no
      other row changes. */
  method AbsorbSurfaces(veh: Vehicle, rows: seq<Row>, i: nat, cur: seq<Row>) returns (out: seq<Row>)
    requires i < |rows| && |cur| == |rows|
    requires forall k :: 0 <= k < |rows| ==> cur[k] == rows[k].(swet := cur[k].swet)
    requires forall k :: i <= k < |rows| ==> cur[k].swet == rows[k].swet
    ensures out == cur[i := rows[i].(swet := rows[i].swet + SurfaceSum(veh, rows, cur, i, |rows|))]
  {
    var n := |rows|;
    out := cur;
    var j := 0;
    while j < n
      invariant 0 <= j <= n
      invariant out == cur[i := rows[i].(swet := rows[i].swet + SurfaceSum(veh, rows, cur, i, j))]
    {
      if i != j && FoldsSurface(veh, out[i], out[j]) {
        assert FoldsSurface(veh, rows[i], rows[j]);
        out := out[i := out[i].(swet := out[i].swet + out[j].swet)];
      } else {
        assert !(i != j && FoldsSurface(veh, rows[i], rows[j]));
      }
      j := j + 1;
    }
  }

  /** Second pass of UpdateWettedAreaTotals: every main-surface row gains the
      wetted area of the surfaces it absorbs, reading the rows as the pass
      leaves them, so an earlier row contributes its updated total. */
  method FoldSurfaces(veh: Vehicle, rows: seq<Row>) returns (out: seq<Row>)
    ensures |out| == |rows|
    ensures forall i :: 0 <= i < |rows| ==> out[i] == rows[i].(swet := out[i].swet)
    ensures forall i :: 0 <= i < |rows| ==> out[i].swet == rows[i].swet + SurfaceSum(veh, rows, out, i, |rows|)
  {
    var n := |rows|;
    out := rows;
    var i := 0;
    while i < n
      invariant 0 <= i <= n && |out| == n
      invariant forall k :: 0 <= k < n ==> out[k] == rows[k].(swet := out[k].swet)
      invariant forall k :: 0 <= k < i ==> out[k].swet == rows[k].swet + SurfaceSum(veh, rows, out, k, n)
      invariant forall k :: i <= k < n ==> out[k].swet == rows[k].swet
    {
      var next := AbsorbSurfaces(veh, rows, i, out);
      SurfaceSumReadsBelow(veh, rows, out, next, i, n);
      forall k | 0 <= k < i
        ensures SurfaceSum(veh, rows, out, k, n) == SurfaceSum(veh, rows, next, k, n)
      {
        SurfaceSumReadsBelow(veh, rows, out, next, k, n);
      }
      out := next;
      i := i + 1;
    }
  }

  /** UpdateWettedAreaTotals: both passes, and nothing without degenerate
      geometry. `mid` is the table between the passes. */
  method UpdateWettedAreaTotals(veh: Vehicle, rows: seq<Row>, hasDegenGeom: bool)
    returns (out: seq<Row>, mid: seq<Row>)
    ensures !hasDegenGeom ==> out == rows
    ensures hasDegenGeom ==> (|mid| == |rows| &&
      forall i :: 0 <= i < |rows| ==> mid[i] == rows[i].(swet := rows[i].swet + SubSurfaceSum(veh, rows, i, |rows|)))
    ensures hasDegenGeom ==> (|out| == |rows| &&
      forall i :: 0 <= i < |rows| ==> out[i] == mid[i].(swet := mid[i].swet + SurfaceSum(veh, mid, out, i, |rows|)))
  {
    mid := rows;
    out := rows;
    if hasDegenGeom {
      mid := FoldSubSurfaces(veh, rows);
      out := FoldSurfaces(veh, mid);
    }
  }

  /** A sub-surface row keeps its own wetted area through both passes. */
  lemma SubSurfaceRowKeepsArea(veh: Vehicle, rows: seq<Row>, mid: seq<Row>, out: seq<Row>, i: nat)
    requires i < |rows| && rows[i].subSurfID != ""
    requires |mid| == |rows| && |out| == |rows|
    requires forall k :: 0 <= k < |rows| ==> mid[k] == rows[k].(swet := rows[k].swet + SubSurfaceSum(veh, rows, k, |rows|))
    requires forall k :: 0 <= k < |rows| ==> out[k] == mid[k].(swet := mid[k].swet + SurfaceSum(veh, mid, out, k, |rows|))
    ensures out[i] == rows[i]
  {
    SubSurfaceRowGainsNothing(veh, rows, i, |rows|);
    SubSurfaceRowGainsNothingLater(veh, mid, out, i, |rows|);
  }

  /** An included sub-surface is counted once: it is folded into the 0th
      surface of its geometry exactly when it is not a line item of its own. */
  lemma IncludedSubSurfaceCountedOnce(veh: Vehicle, main: Row, sub: Row)
    requires main.subSurfID == "" && main.surfNum == 0 && main.geomID == sub.geomID
    requires sub.subSurfID != "" && veh.included(sub.geomID, sub.subSurfID)
    ensures FoldsSubSurface(veh, main, sub) <==> !IsNotZeroLineItem(veh, sub)
  {
  }

  /** A further surface of a geometry (not the 0th, not a custom-geometry row)
      is counted once: it is folded into the 0th surface of the same shape
      exactly when it is not a line item of its own. */
  lemma SurfaceCountedOnce(veh: Vehicle, head: Row, other: Row)
    requires head.subSurfID == "" && other.subSurfID == ""
    requires head.geomID == other.geomID && head.surfNum == 0 && other.surfNum != 0
    requires head.shapeType == other.shapeType && !CustomLabel(other.rowLabel)
    requires head.expandedList == veh.expanded(head.geomID)
    ensures FoldsSurface(veh, head, other) <==> !IsNotZeroLineItem(veh, other)
  {
  }
}
