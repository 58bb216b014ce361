/** The excrescence ledger's arithmetic: item kinds, the drag totals, the
    dependent amounts (percent of geometry Cd, margin, drag area) and the
    recomputation pass that `UpdateExcres` runs over the ledger. */
module Excrescence {

  /** The five excrescence kinds, in the order of the `vsp::EXCRESCENCE_*`
      selector (COUNT is the lowest value of the type parameter, DRAGAREA the highest). */
  datatype ExcresKind = Count | Cd | PercentGeom | Margin | DragArea

  /** Integer selector of a kind, as `GetCurrentExcresType` reports it. */
  function KindCode(k: ExcresKind): (code: int)
    ensures 0 <= code <= 4
    ensures code == 0 <==> k == Count
  {
    match k
    case Count => 0
    case Cd => 1
    case PercentGeom => 2
    case Margin => 3
    case DragArea => 4
  }

  /** The type column shown for an item of kind `k`. */
  function TypeString(k: ExcresKind): (s: string)
    ensures |s| > 0
  {
    match k
    case Count => "Count (10000*CD)"
    case Cd => "CD"
    case PercentGeom => "% of Cd_Geom"
    case Margin => "Margin"
    case DragArea => "Drag Area (D/q)"
  }

  lemma TypeStringsDistinct(a: ExcresKind, b: ExcresKind)
    requires a != b
    ensures TypeString(a) != TypeString(b)
  {
  }

  /** One line of the ledger (ExcrescenceTableRow). */
  datatype ExcresRow = ExcresRow(
    itemLabel: string,
    typeString: string,
    kind: ExcresKind,
    input: real,       // the value the user typed, in the kind's own unit
    amount: real,      // its drag coefficient contribution
    f: real,           // its drag area, amount * Sref
    percTotalCd: real) // its share of the total drag coefficient

  /** What the ledger reads from the drag build-up of the geometry rows:
      whether degenerate geometry exists, every row's Cd, and Sref. */
  datatype Geometry = Geometry(hasDegenGeom: bool, rowCd: seq<real>, sref: real)

  /** Sum of the strictly positive row drag coefficients (GetGeometryCd). */
  function GeometryCd(cds: seq<real>): (sum: real)
    ensures sum >= 0.0
  {
    if |cds| == 0 then 0.0
    else
      var last := cds[|cds| - 1];
      GeometryCd(cds[..|cds| - 1]) + (if last > 0.0 then last else 0.0)
  }

  /** The geometry Cd bounds every positive row Cd, and is 0 when no row Cd is positive. */
  lemma {:induction false} GeometryCdBounds(cds: seq<real>)
    ensures forall k :: 0 <= k < |cds| ==> cds[k] <= GeometryCd(cds) || cds[k] <= 0.0
    ensures (forall k :: 0 <= k < |cds| ==> cds[k] <= 0.0) ==> GeometryCd(cds) == 0.0
  {
    if |cds| > 0 {
      var init := cds[..|cds| - 1];
      GeometryCdBounds(init);
      assert forall k :: 0 <= k < |init| ==> init[k] == cds[k];
    }
  }

  /** Sum of the amounts of the non-margin items (GetSubTotalExcresCd). */
  function SubTotalExcresCd(rows: seq<ExcresRow>): real
  {
    if |rows| == 0 then 0.0
    else
      var last := rows[|rows| - 1];
      SubTotalExcresCd(rows[..|rows| - 1]) + (if last.kind != Margin then last.amount else 0.0)
  }

  /** Sum of the amounts of all items (GetTotalExcresCD). */
  function TotalExcresCd(rows: seq<ExcresRow>): real
  {
    if |rows| == 0 then 0.0 else TotalExcresCd(rows[..|rows| - 1]) + rows[|rows| - 1].amount
  }

  /** Sum of the amounts of the margin items. */
  function MarginCd(rows: seq<ExcresRow>): real
  {
    if |rows| == 0 then 0.0
    else
      var last := rows[|rows| - 1];
      MarginCd(rows[..|rows| - 1]) + (if last.kind == Margin then last.amount else 0.0)
  }

  predicate HasMargin(rows: seq<ExcresRow>)
  {
    exists i :: 0 <= i < |rows| && rows[i].kind == Margin
  }

  /** The ledger holds a margin item at no more than one position. */
  predicate AtMostOneMargin(rows: seq<ExcresRow>)
  {
    forall i, j :: 0 <= i < |rows| && 0 <= j < |rows| && rows[i].kind == Margin && rows[j].kind == Margin ==> i == j
  }

  lemma {:induction false} TotalExcresSplits(rows: seq<ExcresRow>)
    ensures TotalExcresCd(rows) == SubTotalExcresCd(rows) + MarginCd(rows)
  {
    if |rows| > 0 {
      TotalExcresSplits(rows[..|rows| - 1]);
    }
  }

  lemma {:induction false} NoMarginNoMarginCd(rows: seq<ExcresRow>)
    requires !HasMargin(rows)
    ensures MarginCd(rows) == 0.0
  {
    if |rows| > 0 {
      var init := rows[..|rows| - 1];
      forall i | 0 <= i < |init|
        ensures init[i].kind != Margin
      {
        assert init[i] == rows[i];
      }
      NoMarginNoMarginCd(init);
    }
  }

  /** With a single margin item, the margin drag is exactly that item's amount. */
  lemma {:induction false} SingleMarginCd(rows: seq<ExcresRow>, m: nat)
    requires AtMostOneMargin(rows)
    requires m < |rows| && rows[m].kind == Margin
    ensures MarginCd(rows) == rows[m].amount
  {
    var init := rows[..|rows| - 1];
    if m == |rows| - 1 {
      forall i | 0 <= i < |init|
        ensures init[i].kind != Margin
      {
        assert init[i] == rows[i];
      }
      NoMarginNoMarginCd(init);
    } else {
      assert rows[|rows| - 1].kind != Margin;
      assert AtMostOneMargin(init) by {
        forall i, j | 0 <= i < |init| && 0 <= j < |init| && init[i].kind == Margin && init[j].kind == Margin
          ensures i == j
        {
          assert rows[i] == init[i] && rows[j] == init[j];
        }
      }
      assert init[m] == rows[m];
      SingleMarginCd(init, m);
    }
  }

  /** Two ledgers whose items agree in kind and, outside margin items, in amount
      have the same non-margin subtotal. */
  lemma {:induction false} SubTotalOnlyReadsNonMarginAmounts(a: seq<ExcresRow>, b: seq<ExcresRow>)
    requires |a| == |b|
    requires forall i :: 0 <= i < |a| ==> a[i].kind == b[i].kind
    requires forall i :: 0 <= i < |a| && a[i].kind != Margin ==> a[i].amount == b[i].amount
    ensures SubTotalExcresCd(a) == SubTotalExcresCd(b)
  {
    if |a| > 0 {
      SubTotalOnlyReadsNonMarginAmounts(a[..|a| - 1], b[..|b| - 1]);
    }
  }

  /** Geometry Cd plus the non-margin excrescences (GetSubTotalCD). */
  function SubTotalCd(g: Geometry, rows: seq<ExcresRow>): real
  {
    GeometryCd(g.rowCd) + SubTotalExcresCd(rows)
  }

  /** GetTotalCD: when a margin item exists every excrescence is added to the
      geometry Cd, so the total is the subtotal plus the margin; otherwise it is
      the subtotal. */
  function TotalCd(g: Geometry, rows: seq<ExcresRow>): (total: real)
    ensures HasMargin(rows) ==> total == SubTotalCd(g, rows) + MarginCd(rows)
    ensures !HasMargin(rows) ==> total == SubTotalCd(g, rows)
  {
    TotalExcresSplits(rows);
    if HasMargin(rows) then GeometryCd(g.rowCd) + TotalExcresCd(rows) else SubTotalCd(g, rows)
  }

  /** CalcPercentageGeomCd: `val` percent of the geometry Cd, or 0 without
      degenerate geometry or without positive geometry Cd. */
  function CalcPercentageGeomCd(g: Geometry, val: real): (cd: real)
    ensures !g.hasDegenGeom || GeometryCd(g.rowCd) <= 0.0 ==> cd == 0.0
    ensures g.hasDegenGeom && GeometryCd(g.rowCd) > 0.0 ==> cd * 100.0 == val * GeometryCd(g.rowCd)
  {
    if g.hasDegenGeom && GeometryCd(g.rowCd) > 0.0 then val / 100.0 * GeometryCd(g.rowCd) else 0.0
  }

  /** CalcPercentageTotalCD: the margin drag that makes the subtotal exactly
      (100 - val) percent of subtotal plus margin. */
  function CalcPercentageTotalCD(g: Geometry, rows: seq<ExcresRow>, val: real): (cd: real)
    requires g.hasDegenGeom && SubTotalCd(g, rows) > 0.0 ==> val != 100.0
    ensures !g.hasDegenGeom || SubTotalCd(g, rows) <= 0.0 ==> cd == 0.0
    ensures g.hasDegenGeom && SubTotalCd(g, rows) > 0.0 ==>
      (SubTotalCd(g, rows) + cd) * (100.0 - val) == 100.0 * SubTotalCd(g, rows)
  {
    var s := SubTotalCd(g, rows);
    if g.hasDegenGeom && s > 0.0 then
      MarginClosedForm(s, val);
      s / ((100.0 - val) / 100.0) - s
    else 0.0
  }

  lemma MarginClosedForm(s: real, val: real)
    requires val != 100.0
    ensures (s + (s / ((100.0 - val) / 100.0) - s)) * (100.0 - val) == 100.0 * s
  {
    var d := (100.0 - val) / 100.0;
    assert d != 0.0;
    calc {
      (s + (s / d - s)) * (100.0 - val);
      (s / d) * (100.0 * d);
      100.0 * ((s / d) * d);
      100.0 * s;
    }
  }

  /** CalcDragAreaCd: a drag area `val` (D/q) expressed as a coefficient on Sref. */
  function CalcDragAreaCd(g: Geometry, val: real): (cd: real)
    requires g.hasDegenGeom && GeometryCd(g.rowCd) > 0.0 ==> g.sref != 0.0
    ensures !g.hasDegenGeom || GeometryCd(g.rowCd) <= 0.0 ==> cd == 0.0
    ensures g.hasDegenGeom && GeometryCd(g.rowCd) > 0.0 ==> cd * g.sref == val
  {
    if g.hasDegenGeom && GeometryCd(g.rowCd) > 0.0 then val / g.sref else 0.0
  }

  // ---------------------------------------------------------------------
  // UpdateExcres: one pass over the ledger in index order, updating items in place.

  /** The input an item is recomputed from: the current item takes the value
      being edited, every other item keeps its own. */
  function InputUsed(rows: seq<ExcresRow>, i: nat, cur: int, value: real): real
    requires i < |rows|
  {
    if i == cur then value else rows[i].input
  }

  /** No division by zero occurs in the pass: Sref is non-zero whenever a drag
      area is converted, and, when degenerate geometry exists, no margin is
      100 percent. */
  predicate Computable(g: Geometry, rows: seq<ExcresRow>, cur: int, value: real)
  {
    (g.hasDegenGeom && GeometryCd(g.rowCd) > 0.0 ==> g.sref != 0.0) &&
    (g.hasDegenGeom ==>
      forall i :: 0 <= i < |rows| && rows[i].kind == Margin ==> InputUsed(rows, i, cur, value) != 100.0)
  }

  /** The amount a non-margin item ends the pass with. An unedited CD or count
      item keeps its amount; the others follow from their input. */
  function SettledAmount(g: Geometry, r: ExcresRow, isCurrent: bool, value: real): real
    requires r.kind != Margin
    requires g.hasDegenGeom && GeometryCd(g.rowCd) > 0.0 ==> g.sref != 0.0
  {
    var v := if isCurrent then value else r.input;
    match r.kind
    case Cd => if isCurrent then value else r.amount
    case Count => if isCurrent then value / 10000.0 else r.amount
    case PercentGeom => CalcPercentageGeomCd(g, v)
    case DragArea => CalcDragAreaCd(g, v)
  }

  /** Item `i` as the pass rewrites it, given the ledger `s` as it stands when
      the pass reaches it. */
  function Refreshed(g: Geometry, s: seq<ExcresRow>, i: nat, cur: int, value: real): (r: ExcresRow)
    requires i < |s| && Computable(g, s, cur, value)
    ensures r == s[i].(input := r.input, amount := r.amount)
    ensures r.input == InputUsed(s, i, cur, value)
    ensures s[i].kind != Margin ==> r.amount == SettledAmount(g, s[i], i == cur, value)
    ensures s[i].kind == Margin ==> r.amount == CalcPercentageTotalCD(g, s, InputUsed(s, i, cur, value))
  {
    var v := InputUsed(s, i, cur, value);
    var r := s[i].(input := v);
    match s[i].kind
    case Cd => if i == cur then r.(amount := value) else r
    case Count => if i == cur then r.(amount := value / 10000.0) else r
    case PercentGeom => r.(amount := CalcPercentageGeomCd(g, v))
    case Margin => r.(amount := CalcPercentageTotalCD(g, s, v))
    case DragArea => r.(amount := CalcDragAreaCd(g, v))
  }

  /** The ledger after the pass has rewritten its first `k` items. */
  function AmountsPass(g: Geometry, rows: seq<ExcresRow>, k: nat, cur: int, value: real): (r: seq<ExcresRow>)
    requires k <= |rows| && Computable(g, rows, cur, value)
    ensures |r| == |rows|
    ensures forall i :: 0 <= i < |rows| ==> r[i] == rows[i].(input := r[i].input, amount := r[i].amount)
    ensures forall i :: 0 <= i < |rows| ==> r[i].input == (if i < k then InputUsed(rows, i, cur, value) else rows[i].input)
    ensures forall i :: k <= i < |rows| ==> r[i] == rows[i]
    decreases k
  {
    if k == 0 then rows
    else
      var s := AmountsPass(g, rows, k - 1, cur, value);
      assert Computable(g, s, cur, value) by {
        if g.hasDegenGeom {
          forall i | 0 <= i < |s| && s[i].kind == Margin
            ensures InputUsed(s, i, cur, value) != 100.0
          {
            assert rows[i].kind == Margin;
          }
        }
      }
      s[k - 1 := Refreshed(g, s, k - 1, cur, value)]
  }

  /** The ledger after the first loop of UpdateExcres. */
  function UpdatedAmounts(g: Geometry, rows: seq<ExcresRow>, cur: int, value: real): seq<ExcresRow>
    requires Computable(g, rows, cur, value)
  {
    AmountsPass(g, rows, |rows|, cur, value)
  }

  /** The second loop of UpdateExcres: every drag area follows its amount, but
      only when the subtotal Cd is positive. */
  function RefreshDragAreas(g: Geometry, rows: seq<ExcresRow>): (r: seq<ExcresRow>)
    ensures |r| == |rows|
    ensures forall i :: 0 <= i < |rows| ==> r[i] == rows[i].(f := r[i].f)
    ensures forall i :: 0 <= i < |rows| ==>
      r[i].f == (if SubTotalCd(g, rows) > 0.0 then rows[i].amount * g.sref else rows[i].f)
  {
    seq(|rows|, i requires 0 <= i < |rows| =>
      if SubTotalCd(g, rows) > 0.0 then rows[i].(f := rows[i].amount * g.sref) else rows[i])
  }

  /** The ledger UpdateExcres leaves behind. */
  function UpdateExcresResult(g: Geometry, rows: seq<ExcresRow>, cur: int, value: real): seq<ExcresRow>
    requires Computable(g, rows, cur, value)
  {
    RefreshDragAreas(g, UpdatedAmounts(g, rows, cur, value))
  }

  /** The pass rewrites each item once: item `i` ends as it was rewritten when
      the pass reached it, with items before it already updated and the later
      ones still as they were. */
  lemma {:induction false} AmountAt(g: Geometry, rows: seq<ExcresRow>, k: nat, cur: int, value: real, i: nat)
    requires i < k <= |rows| && Computable(g, rows, cur, value)
    ensures Computable(g, AmountsPass(g, rows, i, cur, value), cur, value)
    ensures AmountsPass(g, rows, k, cur, value)[i] == Refreshed(g, AmountsPass(g, rows, i, cur, value), i, cur, value)
    decreases k
  {
    var s := AmountsPass(g, rows, i, cur, value);
    assert Computable(g, s, cur, value) by {
      if g.hasDegenGeom {
        forall j | 0 <= j < |s| && s[j].kind == Margin
          ensures InputUsed(s, j, cur, value) != 100.0
        {
          assert rows[j].kind == Margin;
        }
      }
    }
    if k > i + 1 {
      AmountAt(g, rows, k - 1, cur, value, i);
    }
  }

  /** Every non-margin item ends the pass with its settled amount, which does
      not depend on the rest of the ledger: an unedited CD or count item is
      left as it was. */
  lemma NonMarginAmount(g: Geometry, rows: seq<ExcresRow>, cur: int, value: real, i: nat)
    requires i < |rows| && Computable(g, rows, cur, value)
    requires rows[i].kind != Margin
    ensures UpdatedAmounts(g, rows, cur, value)[i].amount == SettledAmount(g, rows[i], i == cur, value)
    ensures UpdatedAmounts(g, rows, cur, value)[i].input == InputUsed(rows, i, cur, value)
  {
    AmountAt(g, rows, |rows|, cur, value, i);
  }

  /** A margin item is computed from the subtotal of the ledger as the pass
      finds it: items before it already updated, items after it not yet. */
  lemma MarginAmount(g: Geometry, rows: seq<ExcresRow>, cur: int, value: real, m: nat)
    requires m < |rows| && Computable(g, rows, cur, value)
    requires rows[m].kind == Margin
    ensures Computable(g, AmountsPass(g, rows, m, cur, value), cur, value)
    ensures UpdatedAmounts(g, rows, cur, value)[m].amount ==
      CalcPercentageTotalCD(g, AmountsPass(g, rows, m, cur, value), InputUsed(rows, m, cur, value))
  {
    AmountAt(g, rows, |rows|, cur, value, m);
  }

  /** Every non-margin item already holds the amount the pass would give it. */
  predicate NonMarginSettled(g: Geometry, rows: seq<ExcresRow>, cur: int, value: real)
    requires Computable(g, rows, cur, value)
  {
    forall i :: 0 <= i < |rows| && rows[i].kind != Margin ==>
      rows[i].amount == SettledAmount(g, rows[i], i == cur, value)
  }

  /** One pass settles every non-margin item. */
  lemma OnePassSettlesNonMargin(g: Geometry, rows: seq<ExcresRow>, cur: int, value: real)
    requires Computable(g, rows, cur, value)
    ensures Computable(g, UpdateExcresResult(g, rows, cur, value), cur, value)
    ensures NonMarginSettled(g, UpdateExcresResult(g, rows, cur, value), cur, value)
  {
    var once := UpdatedAmounts(g, rows, cur, value);
    var after := UpdateExcresResult(g, rows, cur, value);
    assert forall i :: 0 <= i < |rows| ==> after[i].kind == rows[i].kind && after[i].input == InputUsed(rows, i, cur, value);
    forall i | 0 <= i < |after| && after[i].kind != Margin
      ensures after[i].amount == SettledAmount(g, after[i], i == cur, value)
    {
      NonMarginAmount(g, rows, cur, value, i);
    }
  }

  /** On a settled ledger the pass changes no non-margin amount, at any stage. */
  lemma {:induction false} SettledPassKeepsNonMargin(g: Geometry, rows: seq<ExcresRow>, k: nat, cur: int, value: real)
    requires k <= |rows| && Computable(g, rows, cur, value)
    requires NonMarginSettled(g, rows, cur, value)
    ensures forall i :: 0 <= i < |rows| && rows[i].kind != Margin ==>
      AmountsPass(g, rows, k, cur, value)[i].amount == rows[i].amount
    decreases k
  {
    if k > 0 {
      SettledPassKeepsNonMargin(g, rows, k - 1, cur, value);
    }
  }

  /** On a settled ledger every margin item is computed from the final subtotal. */
  lemma SettledMargin(g: Geometry, rows: seq<ExcresRow>, cur: int, value: real, m: nat)
    requires m < |rows| && Computable(g, rows, cur, value)
    requires NonMarginSettled(g, rows, cur, value)
    requires rows[m].kind == Margin
    ensures g.hasDegenGeom && SubTotalCd(g, UpdatedAmounts(g, rows, cur, value)) > 0.0 ==> InputUsed(rows, m, cur, value) != 100.0
    ensures UpdatedAmounts(g, rows, cur, value)[m].amount ==
      CalcPercentageTotalCD(g, UpdatedAmounts(g, rows, cur, value), InputUsed(rows, m, cur, value))
  {
    var mid := AmountsPass(g, rows, m, cur, value);
    var fin := UpdatedAmounts(g, rows, cur, value);
    MarginAmount(g, rows, cur, value, m);
    SettledPassKeepsNonMargin(g, rows, m, cur, value);
    SettledPassKeepsNonMargin(g, rows, |rows|, cur, value);
    SubTotalOnlyReadsNonMarginAmounts(mid, fin);
  }

  /** UpdateExcres run twice: the second pass computes every margin item from
      the subtotal it leaves behind, so the margin is then consistent. */
  lemma SecondUpdateSettlesMargin(g: Geometry, rows: seq<ExcresRow>, cur: int, value: real, m: nat)
    requires m < |rows| && Computable(g, rows, cur, value)
    requires rows[m].kind == Margin
    ensures Computable(g, UpdateExcresResult(g, rows, cur, value), cur, value)
    ensures var twice := UpdateExcresResult(g, UpdateExcresResult(g, rows, cur, value), cur, value);
      |twice| == |rows| &&
      (g.hasDegenGeom && SubTotalCd(g, twice) > 0.0 ==> InputUsed(rows, m, cur, value) != 100.0) &&
      twice[m].amount == CalcPercentageTotalCD(g, twice, InputUsed(rows, m, cur, value))
  {
    var once := UpdateExcresResult(g, rows, cur, value);
    OnePassSettlesNonMargin(g, rows, cur, value);
    assert once[m].kind == Margin && InputUsed(once, m, cur, value) == InputUsed(rows, m, cur, value);
    SettledMargin(g, once, cur, value, m);
    var amounts := UpdatedAmounts(g, once, cur, value);
    var twice := RefreshDragAreas(g, amounts);
    SubTotalOnlyReadsNonMarginAmounts(amounts, twice);
  }

  /** A consistent margin of `p` percent makes the subtotal exactly (100 - p)
      percent of the total drag coefficient. */
  lemma MarginShareOfTotal(g: Geometry, rows: seq<ExcresRow>, m: nat, p: real)
    requires AtMostOneMargin(rows)
    requires m < |rows| && rows[m].kind == Margin
    requires g.hasDegenGeom && SubTotalCd(g, rows) > 0.0 && p != 100.0
    requires rows[m].amount == CalcPercentageTotalCD(g, rows, p)
    ensures TotalCd(g, rows) * (100.0 - p) == 100.0 * SubTotalCd(g, rows)
  {
    SingleMarginCd(rows, m);
  }

  /** One pass can leave a margin stale: with the margin before a
      percent-of-geometry item, the margin is computed before that item's
      amount is known. */
  lemma StaleMarginAfterOnePass()
    ensures var g := Geometry(true, [0.02], 100.0);
      var rows := [ExcresRow("M", "Margin", Margin, 10.0, 0.0, 0.0, 0.0),
                   ExcresRow("P", "% of Cd_Geom", PercentGeom, 50.0, 0.0, 0.0, 0.0)];
      Computable(g, rows, -1, 0.0) &&
      var after := UpdatedAmounts(g, rows, -1, 0.0);
      after[1].amount == 0.01 &&
      SubTotalCd(g, after) == 0.03 &&
      after[0].amount != CalcPercentageTotalCD(g, after, 10.0)
  {
    var g := Geometry(true, [0.02], 100.0);
    var rows := [ExcresRow("M", "Margin", Margin, 10.0, 0.0, 0.0, 0.0),
                 ExcresRow("P", "% of Cd_Geom", PercentGeom, 50.0, 0.0, 0.0, 0.0)];
    assert GeometryCd([0.02]) == 0.02 by {
      assert [0.02][..0] == [];
    }
    assert Computable(g, rows, -1, 0.0);
    var after := UpdatedAmounts(g, rows, -1, 0.0);
    MarginAmount(g, rows, -1, 0.0, 0);
    NonMarginAmount(g, rows, -1, 0.0, 1);
    var mid := AmountsPass(g, rows, 0, -1, 0.0);
    assert mid == rows;
    assert SubTotalExcresCd(rows) == 0.0 by {
      assert rows[..1][..0] == [];
    }
    assert after[1].amount == 0.01;
    assert SubTotalExcresCd(after) == 0.01 by {
      assert after[..1][..0] == [];
      assert after[..1] == [after[0]];
    }
    assert after[0].amount == 0.02 / 0.9 - 0.02;
    assert CalcPercentageTotalCD(g, after, 10.0) == 0.03 / 0.9 - 0.03;
  }
}
