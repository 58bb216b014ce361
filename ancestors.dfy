/** OverwritePropertiesFromAncestorGeom: a row grouped into an ancestor
    geometry takes that ancestor's reference length, Reynolds number,
    fineness ratio, form factor, laminar percentage, interference factor and
    skin friction. The rows are updated in place, in index order. */
module AncestorGroups {
  import opened DragRows

  /** Row `j` is the 0th surface of the ancestor row `i` is grouped into. */
  predicate IsAncestorRow(veh: Vehicle, rows: seq<Row>, i: nat, j: nat)
    requires i < |rows| && j < |rows|
  {
    rows[j].geomID == veh.ancestorOf(rows[i].geomID, rows[i].ancestorGen) && rows[j].surfNum == 0
  }

  /** The last row below `n`, other than `i` itself, that is an ancestor row
      of `i`; -1 when there is none. The inner loop visits every match and the
      last one wins (copying from `i` itself changes nothing). */
  function LastAncestorRow(veh: Vehicle, rows: seq<Row>, i: nat, n: nat): (k: int)
    requires i < |rows| && n <= |rows|
    ensures -1 <= k < n && k != i
    ensures k >= 0 ==> IsAncestorRow(veh, rows, i, k)
    ensures forall j :: k < j < n && j != i ==> !IsAncestorRow(veh, rows, i, j)
  {
    if n == 0 then -1
    else if n - 1 != i && IsAncestorRow(veh, rows, i, n - 1) then n - 1
    else LastAncestorRow(veh, rows, i, n - 1)
  }

  /** The properties a grouped row takes from its ancestor row. */
  function Inherit(dst: Row, src: Row): Row
  {
    dst.(lref := src.lref, re := src.re, fineRat := src.fineRat, ffOut := src.ffOut,
         ffType := src.ffType, percLam := src.percLam, q := src.q, cf := src.cf)
  }

  /** Two rows agree on every inherited property. */
  predicate SharesProperties(a: Row, b: Row)
  {
    a.lref == b.lref && a.re == b.re && a.fineRat == b.fineRat && a.ffOut == b.ffOut &&
    a.ffType == b.ffType && a.percLam == b.percLam && a.q == b.q && a.cf == b.cf
  }

  /** Row `i` after the pass, given the whole result `out`: a grouped row
      copies its last ancestor row, which is already overwritten when it comes
      before `i` and not yet when it comes after. */
  function Resolved(veh: Vehicle, rows: seq<Row>, out: seq<Row>, i: nat): Row
    requires i < |rows| && |out| == |rows|
  {
    var k := LastAncestorRow(veh, rows, i, |rows|);
    if rows[i].ancestorGen > 0 && k >= 0 then Inherit(rows[i], if k < i then out[k] else rows[k]) else rows[i]
  }

  /** The inner loop for a grouped row `i`: copy from every ancestor row, in
      index order, reading the table `cur` as the outer loop has left it. */
  method CopyFromAncestorRows(veh: Vehicle, rows: seq<Row>, cur: seq<Row>, i: nat) returns (r: Row)
    requires i < |rows| && |cur| == |rows| && cur[i] == rows[i]
    requires forall k :: 0 <= k < |rows| ==> cur[k].geomID == rows[k].geomID && cur[k].surfNum == rows[k].surfNum
    ensures var k := LastAncestorRow(veh, rows, i, |rows|);
      r == (if k >= 0 then Inherit(rows[i], cur[k]) else rows[i])
  {
    var n := |rows|;
    r := cur[i];
    var j := 0;
    while j < n
      invariant 0 <= j <= n
      invariant r.geomID == rows[i].geomID && r.ancestorGen == rows[i].ancestorGen
      invariant var k := LastAncestorRow(veh, rows, i, j);
        r == (if k >= 0 then Inherit(rows[i], cur[k]) else rows[i])
    {
      var src := if j == i then r else cur[j];
      if src.geomID == veh.ancestorOf(r.geomID, r.ancestorGen) && src.surfNum == 0 {
        r := Inherit(r, src);
      }
      j := j + 1;
    }
  }

  method OverwritePropertiesFromAncestorGeom(veh: Vehicle, rows: seq<Row>) returns (out: seq<Row>)
    ensures |out| == |rows|
    ensures forall i :: 0 <= i < |rows| ==> out[i] == Inherit(rows[i], out[i])
    ensures forall i :: 0 <= i < |rows| ==> out[i] == Resolved(veh, rows, out, i)
  {
    var n := |rows|;
    out := rows;
    var i := 0;
    while i < n
      invariant 0 <= i <= n && |out| == n
      invariant forall k :: 0 <= k < n ==> out[k] == Inherit(rows[k], out[k])
      invariant forall k :: 0 <= k < i ==> out[k] == Resolved(veh, rows, out, k)
      invariant forall k :: i <= k < n ==> out[k] == rows[k]
    {
      if out[i].ancestorGen > 0 {
        var r := CopyFromAncestorRows(veh, rows, out, i);
        var next := out[i := r];
        forall k | 0 <= k < i
          ensures next[k] == Resolved(veh, rows, next, k)
        {
          var a := LastAncestorRow(veh, rows, k, n);
          assert 0 <= a < k ==> next[a] == out[a];
        }
        out := next;
      }
      i := i + 1;
    }
  }

  /** Grouping under an ancestor that is not itself grouped: the row ends
      with exactly the ancestor row's properties. */
  lemma InheritsFromUngroupedAncestor(veh: Vehicle, rows: seq<Row>, out: seq<Row>, i: nat)
    requires |out| == |rows| && forall k :: 0 <= k < |rows| ==> out[k] == Resolved(veh, rows, out, k)
    requires i < |rows| && rows[i].ancestorGen > 0
    requires LastAncestorRow(veh, rows, i, |rows|) >= 0
    requires rows[LastAncestorRow(veh, rows, i, |rows|)].ancestorGen <= 0
    ensures SharesProperties(out[i], out[LastAncestorRow(veh, rows, i, |rows|)])
  {
  }

  /** A grouped ancestor row that comes later in the table is read before
      its own overwrite: the row takes that ancestor row's original properties. */
  lemma InheritsOriginalOfLaterAncestor(veh: Vehicle, rows: seq<Row>, out: seq<Row>, i: nat)
    requires |out| == |rows| && forall k :: 0 <= k < |rows| ==> out[k] == Resolved(veh, rows, out, k)
    requires i < |rows| && rows[i].ancestorGen > 0
    requires LastAncestorRow(veh, rows, i, |rows|) > i
    ensures SharesProperties(out[i], rows[LastAncestorRow(veh, rows, i, |rows|)])
  {
  }

  /** A row that is not grouped, or whose ancestor has no 0th-surface row, is left as it was. */
  lemma UngroupedRowUnchanged(veh: Vehicle, rows: seq<Row>, out: seq<Row>, i: nat)
    requires |out| == |rows| && forall k :: 0 <= k < |rows| ==> out[k] == Resolved(veh, rows, out, k)
    requires i < |rows|
    requires rows[i].ancestorGen <= 0 || forall j :: 0 <= j < |rows| && j != i ==> !IsAncestorRow(veh, rows, i, j)
    ensures out[i] == rows[i]
  {
  }
}
