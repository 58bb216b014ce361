/** Which rows carry their own drag (IsNotZeroLineItem) and the drag area and
    drag coefficient of every row (Calculate_f, Calculate_Cd). */
module LineItems {
  import opened Values
  import opened Text
  import opened DragRows

  /** Rows of a custom geometry are labelled "[W] name" or "[B] name". */
  predicate CustomLabel(s: string)
  {
    StartsWith(s, "[W]") || StartsWith(s, "[B]")
  }

  /** A row contributes its own drag. A main-surface row does when it is the
      0th surface, its list is expanded or it is a custom-geometry row, and it is
      not grouped into an ancestor (or that ancestor's or its own list is
      expanded). A sub-surface row does when it is included in the wetted
      area and its geometry's list is expanded. */
  predicate IsNotZeroLineItem(veh: Vehicle, r: Row)
  {
    if r.subSurfID == "" then
      (r.surfNum == 0 || veh.expanded(r.geomID) || CustomLabel(r.rowLabel)) &&
      (r.ancestorGen == 0 || veh.expanded(veh.ancestorOf(r.geomID, r.ancestorGen)) || veh.expanded(r.geomID))
    else
      veh.included(r.geomID, r.subSurfID) && veh.expanded(r.geomID)
  }

  /** A 0th main surface that is not grouped into an ancestor always carries its own drag. */
  lemma MainSurfaceAlwaysCounts(veh: Vehicle, r: Row)
    requires r.subSurfID == "" && r.surfNum == 0 && r.ancestorGen == 0
    ensures IsNotZeroLineItem(veh, r)
  {
  }

  /** With its list expanded, every main-surface row of a geometry carries its
      own drag, and a sub-surface row does exactly when it is included. */
  lemma ExpandedListCounts(veh: Vehicle, r: Row)
    requires veh.expanded(r.geomID)
    ensures IsNotZeroLineItem(veh, r) <==> r.subSurfID == "" || veh.included(r.geomID, r.subSurfID)
  {
  }

  /** A sub-surface of a geometry whose list is collapsed never carries its own drag. */
  lemma CollapsedSubSurfaceIsZero(veh: Vehicle, r: Row)
    requires r.subSurfID != "" && !veh.expanded(r.geomID)
    ensures !IsNotZeroLineItem(veh, r)
  {
  }

  /** A later surface of a collapsed, non-custom geometry carries no drag of its own. */
  lemma CollapsedRepeatedSurfaceIsZero(veh: Vehicle, r: Row)
    requires r.subSurfID == "" && r.surfNum != 0 && !veh.expanded(r.geomID) && !CustomLabel(r.rowLabel)
    ensures !IsNotZeroLineItem(veh, r)
  {
  }

  /** A main-surface row grouped into an ancestor carries no drag of its own
      when neither its list nor the ancestor's is expanded. */
  lemma GroupedIntoCollapsedAncestorIsZero(veh: Vehicle, r: Row)
    requires r.subSurfID == "" && r.ancestorGen != 0
    requires !veh.expanded(r.geomID) && !veh.expanded(veh.ancestorOf(r.geomID, r.ancestorGen))
    ensures !IsNotZeroLineItem(veh, r)
  {
  }

  /** Interference factor used for a row: the input, or 1 when none was given. */
  function EffectiveQ(r: Row): (q: real)
    ensures r.q != -1.0 ==> q == r.q
    ensures r.q == -1.0 ==> q == 1.0
  {
    if r.q != -1.0 then r.q else 1.0
  }

  /** Form factor used for a row: the user's, or the computed one when none was given. */
  function EffectiveFF(r: Row): (ff: Value)
    ensures r.ffIn != -1.0 ==> ff == Num(r.ffIn)
    ensures r.ffIn == -1.0 ==> ff == r.ffOut
  {
    if r.ffIn != -1.0 then Num(r.ffIn) else r.ffOut
  }

  /** Calculate_f: the drag area of every row, f = Swet * Q * Cf * FF for a
      row that carries its own drag, 0 for a zero line item, and the sentinel
      -1 for every row when there is no degenerate geometry. */
  method CalculateF(veh: Vehicle, rows: seq<Row>, hasDegenGeom: bool) returns (out: seq<Row>)
    ensures |out| == |rows|
    ensures forall i :: 0 <= i < |rows| ==> out[i] == rows[i].(f := out[i].f)
    ensures forall i :: 0 <= i < |rows| && !hasDegenGeom ==> out[i].f == Num(-1.0)
    ensures forall i :: 0 <= i < |rows| && hasDegenGeom && !IsNotZeroLineItem(veh, rows[i]) ==> out[i].f == Num(0.0)
    ensures forall i :: 0 <= i < |rows| && hasDegenGeom && IsNotZeroLineItem(veh, rows[i]) ==>
      out[i].f == Times(Times(Num(rows[i].swet * EffectiveQ(rows[i])), rows[i].cf), EffectiveFF(rows[i]))
  {
    out := [];
    var i := 0;
    while i < |rows|
      invariant 0 <= i <= |rows| && |out| == i
      invariant forall k :: 0 <= k < i ==> out[k] == rows[k].(f := out[k].f)
      invariant forall k :: 0 <= k < i && !hasDegenGeom ==> out[k].f == Num(-1.0)
      invariant forall k :: 0 <= k < i && hasDegenGeom && !IsNotZeroLineItem(veh, rows[k]) ==> out[k].f == Num(0.0)
      invariant forall k :: 0 <= k < i && hasDegenGeom && IsNotZeroLineItem(veh, rows[k]) ==>
        out[k].f == Times(Times(Num(rows[k].swet * EffectiveQ(rows[k])), rows[k].cf), EffectiveFF(rows[k]))
    {
      var f := RowDragArea(veh, rows[i], hasDegenGeom);
      var prev := out;
      out := out + [rows[i].(f := f)];
      assert forall k :: 0 <= k < i ==> out[k] == prev[k];
      assert out[i].f == f;
      i := i + 1;
    }
  }

  /** The drag area Calculate_f gives one row. */
  method RowDragArea(veh: Vehicle, r: Row, hasDegenGeom: bool) returns (f: Value)
    ensures !hasDegenGeom ==> f == Num(-1.0)
    ensures hasDegenGeom && !IsNotZeroLineItem(veh, r) ==> f == Num(0.0)
    ensures hasDegenGeom && IsNotZeroLineItem(veh, r) ==> f == Times(Times(Num(r.swet * EffectiveQ(r)), r.cf), EffectiveFF(r))
  {
    var q := if r.q != -1.0 then r.q else 1.0;
    var ff := if r.ffIn != -1.0 then Num(r.ffIn) else r.ffOut;
    if IsNotZeroLineItem(veh, r) {
      if hasDegenGeom {
        f := Times(Times(Num(r.swet * q), r.cf), ff);
      } else {
        f := Num(-1.0);
      }
    } else {
      if hasDegenGeom {
        f := Num(0.0);
      } else {
        f := Num(-1.0);
      }
    }
  }

  /** Calculate_Cd: the drag coefficient of every row. A row that carries its
      own drag has Cd * Sref = f, or Cd = 0 when f is not a number; a zero line
      item has Cd = 0; without degenerate geometry every row has the sentinel -1. */
  method CalculateCd(veh: Vehicle, rows: seq<Row>, hasDegenGeom: bool, sref: real) returns (out: seq<Row>)
    requires forall i :: 0 <= i < |rows| && hasDegenGeom && IsNotZeroLineItem(veh, rows[i]) && rows[i].f.Num? ==> sref != 0.0
    ensures |out| == |rows|
    ensures forall i :: 0 <= i < |rows| ==> out[i] == rows[i].(cd := out[i].cd)
    ensures forall i :: 0 <= i < |rows| && !hasDegenGeom ==> out[i].cd == -1.0
    ensures forall i :: 0 <= i < |rows| && hasDegenGeom && !IsNotZeroLineItem(veh, rows[i]) ==> out[i].cd == 0.0
    ensures forall i :: 0 <= i < |rows| && hasDegenGeom && IsNotZeroLineItem(veh, rows[i]) && rows[i].f.NaN? ==> out[i].cd == 0.0
    ensures forall i :: 0 <= i < |rows| && hasDegenGeom && IsNotZeroLineItem(veh, rows[i]) && rows[i].f.Num? ==>
      out[i].cd * sref == rows[i].f.x
  {
    out := [];
    var i := 0;
    while i < |rows|
      invariant 0 <= i <= |rows| && |out| == i
      invariant forall k :: 0 <= k < i ==> out[k] == rows[k].(cd := out[k].cd)
      invariant forall k :: 0 <= k < i && !hasDegenGeom ==> out[k].cd == -1.0
      invariant forall k :: 0 <= k < i && hasDegenGeom && !IsNotZeroLineItem(veh, rows[k]) ==> out[k].cd == 0.0
      invariant forall k :: 0 <= k < i && hasDegenGeom && IsNotZeroLineItem(veh, rows[k]) && rows[k].f.NaN? ==> out[k].cd == 0.0
      invariant forall k :: 0 <= k < i && hasDegenGeom && IsNotZeroLineItem(veh, rows[k]) && rows[k].f.Num? ==>
        out[k].cd * sref == rows[k].f.x
    {
      var cd := RowCd(veh, rows[i], hasDegenGeom, sref);
      out := out + [rows[i].(cd := cd)];
      i := i + 1;
    }
  }

  /** The drag coefficient Calculate_Cd gives one row. */
  method RowCd(veh: Vehicle, r: Row, hasDegenGeom: bool, sref: real) returns (cd: real)
    requires hasDegenGeom && IsNotZeroLineItem(veh, r) && r.f.Num? ==> sref != 0.0
    ensures !hasDegenGeom ==> cd == -1.0
    ensures hasDegenGeom && !IsNotZeroLineItem(veh, r) ==> cd == 0.0
    ensures hasDegenGeom && IsNotZeroLineItem(veh, r) && r.f.NaN? ==> cd == 0.0
    ensures hasDegenGeom && IsNotZeroLineItem(veh, r) && r.f.Num? ==> cd * sref == r.f.x
  {
    if IsNotZeroLineItem(veh, r) {
      if hasDegenGeom {
        if r.f.Num? {
          cd := r.f.x / sref;
        } else {
          cd := 0.0;
        }
      } else {
        cd := -1.0;
      }
    } else {
      if hasDegenGeom {
        cd := 0.0;
      } else {
        cd := -1.0;
      }
    }
  }
}
