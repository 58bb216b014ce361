/** Building the rows of the drag build-up from the geometries
    (LoadMainTableUserInputs), counting them (CalcRowSize) and testing whether
    the geometry set changed (IsSameGeomSet). */
module TableBuild {
  import opened Values
  import opened Text
  import opened DragRows

  /** Form factor equation of a surface: the body equation for a NORMAL_SURF, else the wing equation. */
  function FFTypeFor(g: GeomDesc, st: SurfType): int
  {
    if st == NormalSurf then g.ffBodyEqnType else g.ffWingEqnType
  }

  /** A row carries the geometry's user inputs. */
  predicate HasGeomInputs(r: Row, g: GeomDesc)
  {
    r.percLam == g.percLam && r.ffIn == g.ffUser && r.q == g.q &&
    r.roughness == g.roughness && r.teTwRatio == g.teTwRatio && r.tawTwRatio == g.tawTwRatio
  }

  /** A row with the given identity and inputs; the values later stages
      compute hold the table's -1 sentinel. */
  function NewRow(geomID: string, subSurfID: string, rowLabel: string, surfNum: int, ancestorGen: int,
                  expandedList: bool, shapeType: SurfType, ffType: int, inputs: Row): Row
  {
    Row(geomID, subSurfID, rowLabel, surfNum, ancestorGen, expandedList, shapeType, ffType,
        inputs.percLam, inputs.ffIn, inputs.q, inputs.roughness, inputs.teTwRatio, inputs.tawTwRatio,
        -1.0, -1.0, -1.0, Num(-1.0), -1.0, Num(-1.0), Num(-1.0), -1.0, -1.0)
  }

  /** A surface of the same type as the previous one is a further copy of it. */
  predicate RepeatsPrevious(g: GeomDesc, j: nat)
    requires j < |g.surfTypes|
  {
    j > 0 && g.surfTypes[j] == g.surfTypes[j - 1]
  }

  /** Label of main surface `j`: "name_j" for a repeated surface type,
      "[B] name" or "[W] name" on a custom geometry, else the name. */
  function MainLabel(g: GeomDesc, j: nat): string
    requires j < |g.surfTypes|
  {
    if RepeatsPrevious(g, j) then g.name + "_" + NatToString(j)
    else if g.kind == CustomGeom then (if g.surfTypes[j] == NormalSurf then "[B] " else "[W] ") + g.name
    else g.name
  }

  /** The row of main surface `j` of `g`. */
  function MainRow(g: GeomDesc, j: nat): (r: Row)
    requires j < |g.surfTypes|
    ensures HasGeomInputs(r, g)
  {
    var st := g.surfTypes[j];
    NewRow(g.id, "", MainLabel(g, j),
           if RepeatsPrevious(g, j) || g.kind == CustomGeom then j else 0,
           g.groupedAncestorGen,
           if RepeatsPrevious(g, j) then false else g.expandedListFlag,
           st, FFTypeFor(g, st),
           Row("", "", "", 0, 0, false, st, 0, g.percLam, g.ffUser, g.q, g.roughness, g.teTwRatio, g.tawTwRatio,
               0.0, 0.0, 0.0, NaN, 0.0, NaN, NaN, 0.0, 0.0))
  }

  /** The row of sub-surface `s` on surface `k` of `g`: labelled "[ss] name_k",
      not grouped (generation -1), and with the inputs of the row before it. */
  function SubRow(g: GeomDesc, s: SubSurf, k: nat, prev: Row): Row
    requires k < |g.surfTypes|
  {
    var st := g.surfTypes[k];
    NewRow(g.id, s.id, "[ss] " + s.name + "_" + NatToString(k), k, -1, false, st, FFTypeFor(g, st), prev)
  }

  /** All main-surface rows of `g`. */
  function MainRows(g: GeomDesc): (rows: seq<Row>)
    ensures |rows| == |g.surfTypes|
  {
    seq(|g.surfTypes|, j requires 0 <= j < |g.surfTypes| => MainRow(g, j))
  }

  /** The rows of the first `m` sub-surfaces of `g`, one per surface each; every
      one carries the geometry's inputs, copied along from the last main row. */
  function SubRows(g: GeomDesc, m: nat): (rows: seq<Row>)
    requires m <= |g.subSurfs| && |g.surfTypes| > 0
  {
    if m == 0 then [] else SubRows(g, m - 1) + SubSurfaceRows(g, g.subSurfs[m - 1])
  }

  /** Every row geometry `g` contributes: its surfaces, then its sub-surfaces. */
  function GeomRows(g: GeomDesc): seq<Row>
  {
    if |g.surfTypes| == 0 then [] else MainRows(g) + SubRows(g, |g.subSurfs|)
  }

  /** The rows of every geometry of `ids` that the vehicle knows, in order. */
  function TableInputs(veh: Vehicle, ids: seq<string>): seq<Row>
  {
    if |ids| == 0 then []
    else
      TableInputs(veh, ids[..|ids| - 1]) +
      (match veh.find(ids[|ids| - 1]) case Some(g) => GeomRows(g) case None => [])
  }

  /** The row LoadMainTableUserInputs builds for surface `j` of `g`, given the
      row before it. */
  method MakeMainRow(g: GeomDesc, j: nat, rows: seq<Row>) returns (r: Row)
    requires j < |g.surfTypes|
    requires j > 0 ==> |rows| > 0 && rows[|rows| - 1] == MainRow(g, j - 1)
    ensures r == MainRow(g, j)
  {
    var st := g.surfTypes[j];
    if j > 0 && st == g.surfTypes[j - 1] {
      r := NewRow(g.id, "", g.name + "_" + NatToString(j), j, g.groupedAncestorGen, false,
                  st, FFTypeFor(g, st), rows[|rows| - 1]);
    } else {
      var name := if g.kind == CustomGeom then (if st == NormalSurf then "[B] " else "[W] ") + g.name else g.name;
      var surfNum := if g.kind == CustomGeom then j else 0;
      r := NewRow(g.id, "", name, surfNum, g.groupedAncestorGen, g.expandedListFlag,
                  st, FFTypeFor(g, st), MainRow(g, j));
    }
  }

  /** The surface loop of LoadMainTableUserInputs for one geometry: a surface
      of the same type as the one before copies that row's inputs. */
  method AppendMainRows(rows: seq<Row>, g: GeomDesc) returns (out: seq<Row>)
    ensures out == rows + MainRows(g)
    ensures |g.surfTypes| > 0 ==> HasGeomInputs(out[|out| - 1], g)
  {
    var n := |g.surfTypes|;
    out := rows;
    var j := 0;
    while j < n
      invariant 0 <= j <= n
      invariant out == rows + MainRows(g)[..j]
    {
      if j > 0 {
        assert out[|out| - 1] == MainRows(g)[j - 1];
      }
      var r := MakeMainRow(g, j, out);
      assert MainRows(g)[..j + 1] == MainRows(g)[..j] + [MainRow(g, j)];
      out := out + [r];
      j := j + 1;
    }
    assert MainRows(g)[..n] == MainRows(g);
    if n > 0 {
      assert out[|out| - 1] == MainRow(g, n - 1);
    }
  }

  /** The rows of sub-surface `sub`, one per surface of `g`. */
  function SubSurfaceRows(g: GeomDesc, sub: SubSurf): (rows: seq<Row>)
    requires |g.surfTypes| > 0
    ensures |rows| == |g.surfTypes|
  {
    var last := MainRow(g, |g.surfTypes| - 1);
    seq(|g.surfTypes|, k requires 0 <= k < |g.surfTypes| => SubRow(g, sub, k, last))
  }

  /** The loop over the surfaces for one sub-surface: each row copies the
      inputs of the row before it, which are the geometry's. */
  method AppendSubSurfaceRows(rows: seq<Row>, g: GeomDesc, sub: SubSurf) returns (out: seq<Row>)
    requires |g.surfTypes| > 0 && |rows| > 0 && HasGeomInputs(rows[|rows| - 1], g)
    ensures out == rows + SubSurfaceRows(g, sub)
    ensures HasGeomInputs(out[|out| - 1], g)
  {
    var n := |g.surfTypes|;
    out := rows;
    var k := 0;
    while k < n
      invariant 0 <= k <= n && |out| > 0
      invariant out == rows + SubSurfaceRows(g, sub)[..k]
      invariant HasGeomInputs(out[|out| - 1], g)
    {
      var st := g.surfTypes[k];
      var last := out[|out| - 1];
      var r := NewRow(g.id, sub.id, "[ss] " + sub.name + "_" + NatToString(k), k, -1, false,
                      st, FFTypeFor(g, st), last);
      assert r == SubSurfaceRows(g, sub)[k];
      assert SubSurfaceRows(g, sub)[..k + 1] == SubSurfaceRows(g, sub)[..k] + [r];
      out := out + [r];
      k := k + 1;
    }
    assert SubSurfaceRows(g, sub)[..n] == SubSurfaceRows(g, sub);
  }

  /** The sub-surface loop of LoadMainTableUserInputs for one geometry. */
  method AppendSubRows(rows: seq<Row>, g: GeomDesc) returns (out: seq<Row>)
    requires |g.surfTypes| > 0 && |rows| > 0 && HasGeomInputs(rows[|rows| - 1], g)
    ensures out == rows + SubRows(g, |g.subSurfs|)
  {
    out := rows;
    var s := 0;
    while s < |g.subSurfs|
      invariant 0 <= s <= |g.subSurfs| && |out| > 0
      invariant out == rows + SubRows(g, s)
      invariant HasGeomInputs(out[|out| - 1], g)
    {
      out := AppendSubSurfaceRows(out, g, g.subSurfs[s]);
      ConcatAssoc(rows, SubRows(g, s), SubSurfaceRows(g, g.subSurfs[s]));
      s := s + 1;
    }
  }

  /** The rows LoadMainTableUserInputs appends for one geometry. */
  method AppendGeomRows(rows: seq<Row>, g: GeomDesc) returns (out: seq<Row>)
    ensures out == rows + GeomRows(g)
  {
    out := AppendMainRows(rows, g);
    if |g.surfTypes| == 0 {
      return;
    }
    out := AppendSubRows(out, g);
    ConcatAssoc(rows, MainRows(g), SubRows(g, |g.subSurfs|));
  }

  lemma ConcatAssoc<T>(a: seq<T>, b: seq<T>, c: seq<T>)
    ensures (a + b) + c == a + (b + c)
  {
  }

  /** LoadMainTableUserInputs: for every geometry the vehicle knows, one row
      per surface, then one row per sub-surface and surface. */
  method LoadMainTableUserInputs(veh: Vehicle, ids: seq<string>) returns (rows: seq<Row>)
    ensures rows == TableInputs(veh, ids)
  {
    rows := [];
    var i := 0;
    while i < |ids|
      invariant 0 <= i <= |ids|
      invariant rows == TableInputs(veh, ids[..i])
    {
      assert ids[..i + 1][..i] == ids[..i];
      var found := veh.find(ids[i]);
      if found.Some? {
        rows := AppendGeomRows(rows, found.value);
      }
      i := i + 1;
    }
    assert ids[..|ids|] == ids;
  }

  /** Number of rows CalcRowSize counts for `ids`: every surface, plus one
      row per sub-surface and symmetric copy. */
  function RowCount(veh: Vehicle, ids: seq<string>): nat
  {
    if |ids| == 0 then 0
    else
      RowCount(veh, ids[..|ids| - 1]) +
      (match veh.find(ids[|ids| - 1])
       case Some(g) => |g.surfTypes| + |g.subSurfs| * g.numSymmCopies
       case None => 0)
  }

  /** CalcRowSize. */
  method CalcRowSize(veh: Vehicle, ids: seq<string>) returns (rowSize: nat)
    ensures rowSize == RowCount(veh, ids)
  {
    rowSize := 0;
    var i := 0;
    while i < |ids|
      invariant 0 <= i <= |ids|
      invariant rowSize == RowCount(veh, ids[..i])
    {
      assert ids[..i + 1][..i] == ids[..i];
      var found := veh.find(ids[i]);
      if found.Some? {
        var g := found.value;
        rowSize := rowSize + |g.surfTypes|;
        var j := 0;
        while j < |g.subSurfs|
          invariant 0 <= j <= |g.subSurfs|
          invariant rowSize == RowCount(veh, ids[..i]) + |g.surfTypes| + j * g.numSymmCopies
        {
          var k := 0;
          while k < g.numSymmCopies
            invariant 0 <= k <= g.numSymmCopies
            invariant rowSize == RowCount(veh, ids[..i]) + |g.surfTypes| + j * g.numSymmCopies + k
          {
            rowSize := rowSize + 1;
            k := k + 1;
          }
          j := j + 1;
        }
      }
      i := i + 1;
    }
    assert ids[..|ids|] == ids;
  }

  lemma {:induction false} SubRowsLength(g: GeomDesc, m: nat)
    requires m <= |g.subSurfs| && |g.surfTypes| > 0
    ensures |SubRows(g, m)| == m * |g.surfTypes|
  {
    if m > 0 {
      SubRowsLength(g, m - 1);
      var last := SubSurfaceRows(g, g.subSurfs[m - 1]);
      assert |SubRows(g, m)| == |SubRows(g, m - 1)| + |last|;
      MulSucc(m, |g.surfTypes|);
    }
  }

  lemma MulSucc(m: nat, n: nat)
    requires m > 0
    ensures (m - 1) * n + n == m * n
  {
  }

  /** A geometry contributes one row per surface and one per sub-surface and surface. */
  lemma GeomRowsLength(g: GeomDesc)
    ensures |GeomRows(g)| == |g.surfTypes| + |g.subSurfs| * |g.surfTypes|
  {
    if |g.surfTypes| > 0 {
      SubRowsLength(g, |g.subSurfs|);
    }
  }

  /** The count matches the rows built when every geometry with sub-surfaces
      has as many symmetric copies as surfaces. */
  lemma {:induction false} RowCountMatchesTable(veh: Vehicle, ids: seq<string>)
    requires forall i :: 0 <= i < |ids| && veh.find(ids[i]).Some? ==>
      |veh.find(ids[i]).value.subSurfs| == 0 || veh.find(ids[i]).value.numSymmCopies == |veh.find(ids[i]).value.surfTypes|
    ensures RowCount(veh, ids) == |TableInputs(veh, ids)|
  {
    if |ids| > 0 {
      var init := ids[..|ids| - 1];
      assert forall i :: 0 <= i < |init| ==> init[i] == ids[i];
      RowCountMatchesTable(veh, init);
      var found := veh.find(ids[|ids| - 1]);
      if found.Some? {
        var g := found.value;
        assert TableInputs(veh, ids) == TableInputs(veh, init) + GeomRows(g);
        assert RowCount(veh, ids) == RowCount(veh, init) + |g.surfTypes| + |g.subSurfs| * g.numSymmCopies;
        assert |g.subSurfs| == 0 || g.numSymmCopies == |g.surfTypes|;
        GeomRowsLength(g);
      }
    }
  }

  /** A custom geometry whose two surfaces carry one sub-surface is counted as
      three rows while four are built. */
  lemma RowCountDiffersFromTable()
    ensures var g := GeomDesc("G", "Pod", CustomGeom, [NormalSurf, WingSurf], 1, [SubSurf("S", "Strip")],
                              0, 0.0, -1.0, -1.0, 0.0, 1.0, 1.0, false, 0, 0);
      var veh := Vehicle(id => Some(g), id => false, (id, gen) => id, (id, sub) => true);
      RowCount(veh, ["G"]) == 3 && |TableInputs(veh, ["G"])| == 4
  {
    var g := GeomDesc("G", "Pod", CustomGeom, [NormalSurf, WingSurf], 1, [SubSurf("S", "Strip")],
                      0, 0.0, -1.0, -1.0, 0.0, 1.0, 1.0, false, 0, 0);
    var veh := Vehicle(id => Some(g), id => false, (id, gen) => id, (id, sub) => true);
    assert ["G"][..0] == [];
    assert |GeomRows(g)| == 4;
  }

  /** Surfaces of the same type as the one before share its inputs, and are
      numbered and labelled by their index. */
  lemma RepeatedSurfaceSharesInputs(g: GeomDesc, j: nat)
    requires 0 < j < |g.surfTypes| && g.surfTypes[j] == g.surfTypes[j - 1]
    ensures HasGeomInputs(MainRow(g, j - 1), g) && HasGeomInputs(MainRow(g, j), g)
    ensures MainRow(g, j).surfNum == j && !MainRow(g, j).expandedList
    ensures MainRow(g, j).rowLabel == g.name + "_" + NatToString(j)
  {
  }

  /** Sub-surface rows are never grouped, never an expanded list, and carry
      the geometry's inputs. */
  lemma {:induction false} SubRowsCarryGeomInputs(g: GeomDesc, m: nat)
    requires m <= |g.subSurfs| && |g.surfTypes| > 0
    ensures forall t :: 0 <= t < |SubRows(g, m)| ==>
      SubRows(g, m)[t].ancestorGen == -1 && !SubRows(g, m)[t].expandedList && HasGeomInputs(SubRows(g, m)[t], g)
  {
    if m > 0 {
      SubRowsCarryGeomInputs(g, m - 1);
      assert SubRows(g, m) == SubRows(g, m - 1) + SubSurfaceRows(g, g.subSurfs[m - 1]);
    }
  }

  /** The geometry types IsSameGeomSet drops: mesh, blank and hinge geometries,
      and geometries whose first surface is a disk. */
  predicate IsActive(g: GeomDesc)
  {
    g.kind != MeshGeom && g.kind != BlankGeom && g.kind != HingeGeom &&
    !(|g.surfTypes| > 0 && g.surfTypes[0] == DiskSurf)
  }

  /** The ids of `geomSet` that the comparison keeps, in order. */
  function ActiveIDs(veh: Vehicle, geomSet: seq<string>): seq<string>
    requires forall i :: 0 <= i < |geomSet| ==> veh.find(geomSet[i]).Some?
  {
    if |geomSet| == 0 then []
    else
      ActiveIDs(veh, geomSet[..|geomSet| - 1]) + (if IsActive(veh.find(geomSet[|geomSet| - 1]).value) then [geomSet[|geomSet| - 1]] else [])
  }

  /** IsSameGeomSet: the geometry set still yields the same ids, in the same
      order, and the same row count as the table was built for. */
  method IsSameGeomSet(veh: Vehicle, geomSet: seq<string>, rowSize: int, pdGeomIDs: seq<string>) returns (same: bool)
    requires forall i :: 0 <= i < |geomSet| ==> veh.find(geomSet[i]).Some?
    requires forall i :: 0 <= i < |geomSet| ==>
      var g := veh.find(geomSet[i]).value; g.kind != MeshGeom && g.kind != BlankGeom && g.kind != HingeGeom ==> |g.surfTypes| > 0
    ensures same <==> RowCount(veh, ActiveIDs(veh, geomSet)) == rowSize && ActiveIDs(veh, geomSet) == pdGeomIDs
  {
    var kept: seq<string> := [];
    var i := 0;
    while i < |geomSet|
      invariant 0 <= i <= |geomSet|
      invariant kept == ActiveIDs(veh, geomSet[..i])
    {
      assert geomSet[..i + 1][..i] == geomSet[..i];
      var g := veh.find(geomSet[i]).value;
      if g.kind != MeshGeom && g.kind != BlankGeom && g.kind != HingeGeom {
        if g.surfTypes[0] != DiskSurf {
          kept := kept + [geomSet[i]];
        }
      }
      i := i + 1;
    }
    assert geomSet[..|geomSet|] == geomSet;
    var count := CalcRowSize(veh, kept);
    same := count == rowSize && kept == pdGeomIDs;
  }
}
