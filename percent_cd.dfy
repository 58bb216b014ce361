/** UpdatePercentageCD's arithmetic: each geometry row's and each
    excrescence's share of the total drag coefficient, and the drag area and
    share totals it reports. */
module PercentCd {
  import opened Values
  import opened DragRows
  import opened Excrescence

  /** The `geo_Cd` column of the build-up. */
  function CdColumn(rows: seq<Row>): seq<real>
  {
    seq(|rows|, i requires 0 <= i < |rows| => rows[i].cd)
  }

  /** A geometry row's share: its Cd over the total when degenerate geometry
      exists and its drag area is a number, else 0. */
  function GeoShare(r: Row, hasDegenGeom: bool, total: real): real
    requires hasDegenGeom ==> total != 0.0
  {
    if hasDegenGeom && r.f.Num? then r.cd / total else 0.0
  }

  /** The `geo_percTotalCd` entries UpdatePercentageCD appends, one per row. */
  function GeoShares(rows: seq<Row>, hasDegenGeom: bool, total: real): seq<real>
    requires hasDegenGeom ==> total != 0.0
  {
    seq(|rows|, i requires 0 <= i < |rows| => GeoShare(rows[i], hasDegenGeom, total))
  }

  /** Sum of the geometry rows' shares (m_GeomPercTotal). */
  function GeoPercTotal(rows: seq<Row>, hasDegenGeom: bool, total: real): real
    requires hasDegenGeom ==> total != 0.0
  {
    if |rows| == 0 then 0.0
    else GeoPercTotal(rows[..|rows| - 1], hasDegenGeom, total) + GeoShare(rows[|rows| - 1], hasDegenGeom, total)
  }

  /** Sum of the drag areas that are numbers (m_GeomfTotal); 0 without degenerate geometry. */
  function GeoFTotal(rows: seq<Row>, hasDegenGeom: bool): real
  {
    if |rows| == 0 then 0.0
    else
      var r := rows[|rows| - 1];
      GeoFTotal(rows[..|rows| - 1], hasDegenGeom) + (if hasDegenGeom && r.f.Num? then r.f.x else 0.0)
  }

  /** An excrescence's share: its amount over the total, 0 without degenerate geometry. */
  function ExcresShare(e: ExcresRow, hasDegenGeom: bool, total: real): real
    requires hasDegenGeom ==> total != 0.0
  {
    if hasDegenGeom then e.amount / total else 0.0
  }

  /** Sum of the excrescence shares (m_ExcresPercTotal). */
  function ExcresPercTotal(items: seq<ExcresRow>, hasDegenGeom: bool, total: real): real
    requires hasDegenGeom ==> total != 0.0
  {
    if |items| == 0 then 0.0
    else ExcresPercTotal(items[..|items| - 1], hasDegenGeom, total) + ExcresShare(items[|items| - 1], hasDegenGeom, total)
  }

  /** Sum of the excrescence drag areas (m_ExcresfTotal); 0 without degenerate geometry. */
  function ExcresFTotal(items: seq<ExcresRow>, hasDegenGeom: bool): real
  {
    if |items| == 0 then 0.0
    else ExcresFTotal(items[..|items| - 1], hasDegenGeom) + (if hasDegenGeom then items[|items| - 1].f else 0.0)
  }

  /** The Cd of the rows whose drag area is a number. */
  function CountedCd(rows: seq<Row>): real
  {
    if |rows| == 0 then 0.0
    else
      var r := rows[|rows| - 1];
      CountedCd(rows[..|rows| - 1]) + (if r.f.Num? then r.cd else 0.0)
  }

  /** `a` is the fraction of `t` that `x` makes up. */
  predicate Scaled(a: real, t: real, x: real)
  {
    a * t == x
  }

  /** The geometry shares add up to the counted Cd over the total. */
  lemma {:induction false} GeoPercTotalScales(rows: seq<Row>, total: real)
    requires total != 0.0
    ensures Scaled(GeoPercTotal(rows, true, total), total, CountedCd(rows))
  {
    if |rows| > 0 {
      var init := rows[..|rows| - 1];
      GeoPercTotalScales(init, total);
      var r := rows[|rows| - 1];
      assert GeoShare(r, true, total) * total == (if r.f.Num? then r.cd else 0.0);
    }
  }

  /** The excrescence shares add up to all excrescence drag over the total. */
  lemma {:induction false} ExcresPercTotalScales(items: seq<ExcresRow>, total: real)
    requires total != 0.0
    ensures Scaled(ExcresPercTotal(items, true, total), total, TotalExcresCd(items))
  {
    if |items| > 0 {
      ExcresPercTotalScales(items[..|items| - 1], total);
      assert ExcresShare(items[|items| - 1], true, total) * total == items[|items| - 1].amount;
    }
  }

  /** When every drag area is a number and no row Cd is negative, the
      counted Cd is the geometry Cd. */
  lemma {:induction false} CountedCdIsGeometryCd(rows: seq<Row>)
    requires forall i :: 0 <= i < |rows| ==> rows[i].f.Num? && rows[i].cd >= 0.0
    ensures CountedCd(rows) == GeometryCd(CdColumn(rows))
  {
    if |rows| > 0 {
      var init := rows[..|rows| - 1];
      assert CdColumn(rows)[..|rows| - 1] == CdColumn(init);
      CountedCdIsGeometryCd(init);
    }
  }

  /** Without a margin item every excrescence is in the total; with one, the
      total is geometry plus all excrescences by definition. */
  lemma TotalIsGeometryPlusExcres(g: Geometry, items: seq<ExcresRow>)
    ensures TotalCd(g, items) == GeometryCd(g.rowCd) + TotalExcresCd(items)
  {
    TotalExcresSplits(items);
    if !HasMargin(items) {
      NoMarginNoMarginCd(items);
    }
  }

  /** With degenerate geometry, numeric drag areas and no negative row Cd,
      the reported geometry and excrescence shares add up to the whole
      total drag coefficient. */
  lemma SharesSumToOne(rows: seq<Row>, items: seq<ExcresRow>, sref: real)
    requires forall i :: 0 <= i < |rows| ==> rows[i].f.Num? && rows[i].cd >= 0.0
    requires TotalCd(Geometry(true, CdColumn(rows), sref), items) != 0.0
    ensures var total := TotalCd(Geometry(true, CdColumn(rows), sref), items);
      GeoPercTotal(rows, true, total) + ExcresPercTotal(items, true, total) == 1.0
  {
    var g := Geometry(true, CdColumn(rows), sref);
    CountedCdIsGeometryCd(rows);
    TotalIsGeometryPlusExcres(g, items);
    SharesOfTotalSumToOne(rows, items, TotalCd(g, items));
  }

  /** The shares of a total that the counted Cd and the excrescences make up add up to 1. */
  lemma SharesOfTotalSumToOne(rows: seq<Row>, items: seq<ExcresRow>, total: real)
    requires total != 0.0 && CountedCd(rows) + TotalExcresCd(items) == total
    ensures GeoPercTotal(rows, true, total) + ExcresPercTotal(items, true, total) == 1.0
  {
    var geo := GeoPercTotal(rows, true, total);
    var excres := ExcresPercTotal(items, true, total);
    var counted := CountedCd(rows);
    var extra := TotalExcresCd(items);
    GeoPercTotalScales(rows, total);
    ExcresPercTotalScales(items, total);
    ScaledPartsSumToOne(geo, excres, total, counted, extra);
  }

  /** Two fractions of `t` whose parts add up to `t` add up to 1. */
  lemma ScaledPartsSumToOne(a: real, b: real, t: real, x: real, y: real)
    requires t != 0.0 && Scaled(a, t, x) && Scaled(b, t, y) && x + y == t
    ensures a + b == 1.0
  {
    assert (a + b) * t == a * t + b * t;
    assert (a + b - 1.0) * t == 0.0;
  }

  /** Without degenerate geometry every share and total is 0. */
  lemma {:induction false} NoDegenGeomNoShares(rows: seq<Row>, items: seq<ExcresRow>, total: real)
    ensures GeoPercTotal(rows, false, total) == 0.0 && GeoFTotal(rows, false) == 0.0
    ensures ExcresPercTotal(items, false, total) == 0.0 && ExcresFTotal(items, false) == 0.0
    decreases |rows| + |items|
  {
    if |rows| > 0 {
      NoDegenGeomNoShares(rows[..|rows| - 1], items, total);
    }
    if |items| > 0 {
      NoDegenGeomNoShares(rows, items[..|items| - 1], total);
    }
  }
}
