/** The parasite drag manager's own state: the excrescence ledger with its
    current item and pending inputs, the reporting columns, the percentage
    shares of the total drag coefficient and the sorted table rows. */
module Manager {
  import opened Values
  import opened Text
  import opened DragRows
  import opened Excrescence
  import opened PercentCd
  import opened TableSort

  /** The label AddExcrescence gives an unnamed item appended to a ledger of `n` items. */
  function DefaultLabel(n: nat): (s: string)
    ensures StartsWith(s, "EXCRES_")
  {
    "EXCRES_" + NatToString(n)
  }

  /** Unnamed items added to ledgers of different sizes get different labels. */
  lemma DefaultLabelsDistinct(m: nat, n: nat)
    requires m != n
    ensures DefaultLabel(m) != DefaultLabel(n)
  {
    NumberedLabelsDistinct("EXCRES_", m, n);
  }

  /** The limits UpdateCurrentExcresVal puts on the pending value for an item of kind `k`. */
  function ValueLimits(k: ExcresKind): (lim: (real, real))
    ensures lim.0 == 0.0 < lim.1
    ensures k == Margin || k == PercentGeom <==> lim.1 == 100.0
  {
    match k
    case Cd => (0.0, 0.2)
    case Count => (0.0, 2000.0)
    case PercentGeom => (0.0, 100.0)
    case Margin => (0.0, 100.0)
    case DragArea => (0.0, 10.0)
  }

  /** Removing an item keeps the at-most-one-margin invariant. */
  lemma RemoveKeepsOneMargin(rows: seq<ExcresRow>, c: nat)
    requires c < |rows| && AtMostOneMargin(rows)
    ensures AtMostOneMargin(rows[..c] + rows[c + 1..])
  {
    var out := rows[..c] + rows[c + 1..];
    forall i, j | 0 <= i < |out| && 0 <= j < |out| && out[i].kind == Margin && out[j].kind == Margin
      ensures i == j
    {
      var i' := if i < c then i else i + 1;
      var j' := if j < c then j else j + 1;
      assert out[i] == rows[i'] && out[j] == rows[j'];
    }
  }

  /** AddExcrescence's scan of the ledger: an item of kind `kind` is refused
      when it is a margin and the ledger already holds one. */
  method SecondMargin(rows: seq<ExcresRow>, kind: ExcresKind) returns (refused: bool)
    ensures refused <==> kind == Margin && HasMargin(rows)
  {
    var i := 0;
    while i < |rows|
      invariant 0 <= i <= |rows|
      invariant kind == Margin ==> forall k :: 0 <= k < i ==> rows[k].kind != Margin
    {
      if rows[i].kind == Margin && kind == Margin {
        return true;
      }
      i := i + 1;
    }
    return false;
  }

  /** The item AddExcrescence appends to a ledger of `n` items: labelled
      with the pending name, or "EXCRES_n" when the name is empty; a count
      or CD item starts with the amount its value gives, any other kind at 0
      until UpdateExcres computes it; its drag area is the amount times Sref
      and its share is 0. */
  function NewItem(name: string, n: nat, kind: ExcresKind, value: real, sref: real): (e: ExcresRow)
    ensures e.itemLabel == (if name == "" then DefaultLabel(n) else name)
    ensures e.kind == kind && e.typeString == TypeString(kind) && e.input == value
    ensures kind == Count ==> e.amount * 10000.0 == value
    ensures kind == Cd ==> e.amount == value
    ensures kind != Count && kind != Cd ==> e.amount == 0.0
    ensures e.f == e.amount * sref && e.percTotalCd == 0.0
  {
    var amount := match kind
                  case Count => value / 10000.0
                  case Cd => value
                  case _ => 0.0;
    ExcresRow(if name == "" then DefaultLabel(n) else name, TypeString(kind), kind, value, amount, amount * sref, 0.0)
  }

  /** AddExcrescence on the ledger's value: refuse a second margin item,
      else append the new item. The ledger keeps at most one margin. */
  method AppendItem(rows: seq<ExcresRow>, name: string, kind: ExcresKind, value: real, sref: real)
    returns (refused: bool, out: seq<ExcresRow>)
    ensures refused <==> kind == Margin && HasMargin(rows)
    ensures refused ==> out == rows
    ensures !refused ==> out == rows + [NewItem(name, |rows|, kind, value, sref)]
    ensures AtMostOneMargin(rows) ==> AtMostOneMargin(out)
  {
    refused := SecondMargin(rows, kind);
    if refused {
      return refused, rows;
    }
    out := rows + [NewItem(name, |rows|, kind, value, sref)];
    if AtMostOneMargin(rows) {
      forall i, j | 0 <= i < |out| && 0 <= j < |out| && out[i].kind == Margin && out[j].kind == Margin
        ensures i == j
      {
        if i < |rows| {
          assert rows[i] == out[i];
        }
        if j < |rows| {
          assert rows[j] == out[j];
        }
      }
    }
  }

  /** One step of UpdateExcres' first loop: item `i` of the ledger `s` as it
      stands when the loop reaches it. The current item takes the pending
      value; an unedited CD or count item keeps its amount. */
  method RecomputeItem(g: Geometry, s: seq<ExcresRow>, i: nat, cur: int, value: real) returns (r: ExcresRow)
    requires i < |s| && Computable(g, s, cur, value)
    ensures r == Refreshed(g, s, i, cur, value)
  {
    r := s[i];
    if i == cur {
      r := r.(input := value);
      match r.kind {
        case Cd => r := r.(amount := value);
        case Count => r := r.(amount := value / 10000.0);
        case PercentGeom => r := r.(amount := CalcPercentageGeomCd(g, value));
        case Margin => r := r.(amount := CalcPercentageTotalCD(g, s, value));
        case DragArea => r := r.(amount := CalcDragAreaCd(g, value));
      }
    } else {
      match r.kind {
        case PercentGeom => r := r.(amount := CalcPercentageGeomCd(g, r.input));
        case Margin => r := r.(amount := CalcPercentageTotalCD(g, s, r.input));
        case DragArea => r := r.(amount := CalcDragAreaCd(g, r.input));
        case _ =>
      }
    }
  }

  /** UpdateExcres' first loop: every item recomputed in index order, each
      from the ledger as the loop has left it so far. */
  method UpdateAmountsInOrder(g: Geometry, rows: seq<ExcresRow>, cur: int, value: real) returns (out: seq<ExcresRow>)
    requires Computable(g, rows, cur, value)
    ensures out == UpdatedAmounts(g, rows, cur, value)
  {
    var n := |rows|;
    out := rows;
    var i := 0;
    while i < n
      invariant 0 <= i <= n
      invariant out == AmountsPass(g, rows, i, cur, value)
    {
      assert Computable(g, out, cur, value) by {
        AmountAt(g, rows, n, cur, value, i);
      }
      var r := RecomputeItem(g, out, i, cur, value);
      out := out[i := r];
      i := i + 1;
    }
  }

  /** UpdateExcres' second loop: in index order, each item's drag area becomes
      its amount times Sref whenever the subtotal, recomputed at every step, is
      positive. Drag areas do not enter the subtotal, so it stays the same. */
  method RefreshDragAreasInOrder(g: Geometry, rows: seq<ExcresRow>) returns (out: seq<ExcresRow>)
    ensures out == RefreshDragAreas(g, rows)
  {
    ghost var positive := SubTotalCd(g, rows) > 0.0;
    out := rows;
    var i := 0;
    while i < |rows|
      invariant 0 <= i <= |rows| && |out| == |rows|
      invariant forall k :: 0 <= k < |rows| ==> out[k] == rows[k].(f := out[k].f)
      invariant forall k :: 0 <= k < |rows| ==>
        out[k].f == (if k < i && positive then rows[k].amount * g.sref else rows[k].f)
    {
      SubTotalOnlyReadsNonMarginAmounts(rows, out);
      if SubTotalCd(g, out) > 0.0 {
        out := out[i := out[i].(f := out[i].amount * g.sref)];
      }
      i := i + 1;
    }
    assert forall k :: 0 <= k < |rows| ==> out[k] == RefreshDragAreas(g, rows)[k];
  }

  /** UpdatePercentageCD's loop over the geometry rows: the shares it
      appends, the drag area total and the share total. */
  method GeomShareLoop(rows: seq<Row>, degen: bool, total: real)
    returns (shares: seq<real>, ftotal: real, percTotal: real)
    requires degen ==> total != 0.0
    ensures shares == GeoShares(rows, degen, total)
    ensures ftotal == GeoFTotal(rows, degen)
    ensures percTotal == GeoPercTotal(rows, degen, total)
  {
    shares, ftotal, percTotal := [], 0.0, 0.0;
    var i := 0;
    while i < |rows|
      invariant 0 <= i <= |rows|
      invariant shares == GeoShares(rows[..i], degen, total)
      invariant ftotal == GeoFTotal(rows[..i], degen)
      invariant percTotal == GeoPercTotal(rows[..i], degen, total)
    {
      var r := rows[i];
      assert rows[..i + 1][..i] == rows[..i];
      assert GeoShares(rows[..i + 1], degen, total) == GeoShares(rows[..i], degen, total) + [GeoShare(r, degen, total)];
      if degen {
        if r.f.Num? {
          shares := shares + [r.cd / total];
          percTotal := percTotal + r.cd / total;
          ftotal := ftotal + r.f.x;
        } else {
          shares := shares + [0.0];
        }
      } else {
        shares := shares + [0.0];
        percTotal := percTotal + 0.0;
      }
      i := i + 1;
    }
    assert rows[..i] == rows;
  }

  /** UpdatePercentageCD's loop over the ledger: every item's share of the
      total, the drag area total and the share total. */
  method ExcresShareLoop(items: seq<ExcresRow>, degen: bool, total: real)
    returns (out: seq<ExcresRow>, ftotal: real, percTotal: real)
    requires degen ==> total != 0.0
    ensures |out| == |items|
    ensures forall k :: 0 <= k < |items| ==> out[k] == items[k].(percTotalCd := ExcresShare(items[k], degen, total))
    ensures ftotal == ExcresFTotal(items, degen)
    ensures percTotal == ExcresPercTotal(items, degen, total)
  {
    out, ftotal, percTotal := items, 0.0, 0.0;
    var i := 0;
    while i < |items|
      invariant 0 <= i <= |items| == |out|
      invariant forall k :: 0 <= k < i ==> out[k] == items[k].(percTotalCd := ExcresShare(items[k], degen, total))
      invariant forall k :: i <= k < |items| ==> out[k] == items[k]
      invariant ftotal == ExcresFTotal(items[..i], degen)
      invariant percTotal == ExcresPercTotal(items[..i], degen, total)
    {
      assert items[..i + 1][..i] == items[..i];
      var r := out[i];
      if degen {
        out := out[i := r.(percTotalCd := r.amount / total)];
        percTotal := percTotal + r.amount / total;
        ftotal := ftotal + r.f;
      } else {
        out := out[i := r.(percTotalCd := 0.0)];
      }
      i := i + 1;
    }
    assert items[..i] == items;
  }

  class ParasiteDragMgr {
    // The excrescence ledger, the index of its current item (-1: none) and
    // the pending inputs of the next item.
    var excresRows: seq<ExcresRow>
    var currentExcres: int
    var excresName: string
    var excresKind: ExcresKind
    var excresValue: real
    var valueLower: real
    var valueUpper: real

    // What the ledger reads from the drag build-up.
    var hasDegenGeom: bool
    var sref: real
    var geoRows: seq<Row>

    // Reporting columns.
    var geoPercTotalCd: seq<real>
    var geomFTotal: real
    var geomPercTotal: real
    var excresFTotal: real
    var excresPercTotal: real
    var excresLabels: seq<string>
    var excresTypes: seq<string>
    var excresInputs: seq<real>
    var excresAmounts: seq<real>
    var excresPercs: seq<real>

    // The drag table and the sort the user chose.
    var tableRows: seq<Row>
    var sortBy: SortBy

    /** The current index is -1 or names an item, and at most one item is a margin. */
    predicate Valid()
      reads this`currentExcres, this`excresRows
    {
      -1 <= currentExcres < |excresRows| && AtMostOneMargin(excresRows)
    }

    /** The geometry side of the ledger's arithmetic. */
    function Geom(): Geometry
      reads this`hasDegenGeom, this`geoRows, this`sref
    {
      Geometry(hasDegenGeom, CdColumn(geoRows), sref)
    }

    constructor ()
      ensures Valid()
      ensures excresRows == [] && currentExcres == -1 && excresName == ""
      ensures excresKind == Count && excresValue == 0.0 && valueLower == 0.0 && valueUpper == 200.0
      ensures sref == 100.0 && sortBy == SortNone && tableRows == [] && geoRows == []
      ensures !hasDegenGeom && geoPercTotalCd == []
    {
      excresRows := [];
      currentExcres := -1;
      excresName := "";
      excresKind := Count;
      excresValue := 0.0;
      valueLower := 0.0;
      valueUpper := 200.0;
      hasDegenGeom := false;
      sref := 100.0;
      geoRows := [];
      geoPercTotalCd := [];
      geomFTotal := 0.0;
      geomPercTotal := 0.0;
      excresFTotal := 0.0;
      excresPercTotal := 0.0;
      excresLabels := [];
      excresTypes := [];
      excresInputs := [];
      excresAmounts := [];
      excresPercs := [];
      tableRows := [];
      sortBy := SortNone;
    }

    /** Renew: empty the table and the ledger, drop the degenerate geometry,
        reset the pending kind and value, and make no item current. */
    method Renew()
      modifies this`tableRows, this`excresRows, this`hasDegenGeom, this`excresKind, this`excresValue, this`currentExcres
      ensures Valid()
      ensures tableRows == [] && excresRows == [] && !hasDegenGeom
      ensures excresKind == Count && excresValue == 0.0 && currentExcres == -1
    {
      tableRows := [];
      excresRows := [];
      hasDegenGeom := false;
      excresKind := Count;
      excresValue := 0.0;
      currentExcres := -1;
    }

    /** AddExcrescence: append an item of the pending kind, name and value and
        make it current; a second margin item is refused and nothing changes. */
    method AddExcrescence()
      requires Valid()
      modifies this`excresRows, this`currentExcres, this`excresName
      ensures Valid()
      ensures HasMargin(old(excresRows)) && excresKind == Margin ==>
        excresRows == old(excresRows) && currentExcres == old(currentExcres) && excresName == old(excresName)
      ensures !(HasMargin(old(excresRows)) && excresKind == Margin) ==>
        excresRows == old(excresRows) + [NewItem(old(excresName), |old(excresRows)|, excresKind, excresValue, sref)] &&
        currentExcres == |excresRows| - 1 && excresName == ""
    {
      var refused, out := AppendItem(excresRows, excresName, excresKind, excresValue, sref);
      if refused {
        return;
      }
      excresRows := out;
      excresName := "";
      currentExcres := |excresRows| - 1;
    }

    /** The overload that first sets the pending value, kind and name. */
    method AddExcrescenceWith(name: string, kind: ExcresKind, value: real)
      requires Valid()
      modifies this`excresRows, this`currentExcres, this`excresName, this`excresKind, this`excresValue
      ensures Valid() && excresKind == kind && excresValue == value
      ensures HasMargin(old(excresRows)) && kind == Margin ==>
        excresRows == old(excresRows) && currentExcres == old(currentExcres) && excresName == name
      ensures !(HasMargin(old(excresRows)) && kind == Margin) ==>
        excresRows == old(excresRows) + [NewItem(name, |old(excresRows)|, kind, value, sref)] &&
        currentExcres == |excresRows| - 1 && excresName == ""
    {
      excresValue := value;
      excresKind := kind;
      excresName := name;
      AddExcrescence();
    }

    /** UpdateCurrentExcresVal: the pending kind, limits and value follow the current item. */
    method UpdateCurrentExcresVal()
      requires 0 <= currentExcres < |excresRows|
      modifies this`excresKind, this`valueLower, this`valueUpper, this`excresValue
      ensures excresKind == excresRows[currentExcres].kind
      ensures (valueLower, valueUpper) == ValueLimits(excresKind)
      ensures excresValue == excresRows[currentExcres].input
    {
      excresKind := excresRows[currentExcres].kind;
      match excresKind {
        case Cd =>
          valueLower, valueUpper := 0.0, 0.2;
        case Count =>
          valueLower, valueUpper := 0.0, 2000.0;
        case PercentGeom =>
          valueLower, valueUpper := 0.0, 100.0;
        case Margin =>
          valueLower, valueUpper := 0.0, 100.0;
        case DragArea =>
          valueLower, valueUpper := 0.0, 10.0;
      }
      excresValue := excresRows[currentExcres].input;
    }

    /** DeleteExcrescence: remove the current item, keep the others in
        order, then make the first item current, or none when the ledger is empty. */
    method DeleteExcrescence()
      requires Valid()
      modifies this`excresRows, this`currentExcres, this`excresKind, this`valueLower, this`valueUpper, this`excresValue
      ensures Valid()
      ensures old(currentExcres) == -1 ==> excresRows == old(excresRows)
      ensures old(currentExcres) != -1 ==>
        excresRows == old(excresRows)[..old(currentExcres)] + old(excresRows)[old(currentExcres) + 1..]
      ensures |excresRows| > 0 ==>
        currentExcres == 0 && excresKind == excresRows[0].kind && excresValue == excresRows[0].input &&
        (valueLower, valueUpper) == ValueLimits(excresRows[0].kind)
      ensures |excresRows| == 0 ==>
        currentExcres == -1 && excresKind == old(excresKind) && excresValue == old(excresValue) &&
        valueLower == old(valueLower) && valueUpper == old(valueUpper)
    {
      if currentExcres != -1 {
        RemoveKeepsOneMargin(excresRows, currentExcres);
        excresRows := excresRows[..currentExcres] + excresRows[currentExcres + 1..];
      }
      if |excresRows| > 0 {
        currentExcres := 0;
        UpdateCurrentExcresVal();
      } else {
        currentExcres := -1;
      }
    }

    /** The overload that deletes the item at `index`. */
    method DeleteExcrescenceAt(index: int)
      requires Valid() && -1 <= index < |excresRows|
      modifies this`excresRows, this`currentExcres, this`excresKind, this`valueLower, this`valueUpper, this`excresValue
      ensures Valid()
      ensures index == -1 ==> excresRows == old(excresRows)
      ensures index != -1 ==> excresRows == old(excresRows)[..index] + old(excresRows)[index + 1..]
      ensures |excresRows| > 0 ==>
        currentExcres == 0 && excresKind == excresRows[0].kind && excresValue == excresRows[0].input &&
        (valueLower, valueUpper) == ValueLimits(excresRows[0].kind)
      ensures |excresRows| == 0 ==>
        currentExcres == -1 && excresKind == old(excresKind) && excresValue == old(excresValue) &&
        valueLower == old(valueLower) && valueUpper == old(valueUpper)
    {
      currentExcres := index;
      DeleteExcrescence();
    }

    /** SetExcresLabel: rename the current item; nothing changes when no item is current. */
    method SetExcresLabel(newLabel: string)
      requires Valid()
      modifies this`excresRows
      ensures Valid()
      ensures currentExcres == -1 ==> excresRows == old(excresRows)
      ensures currentExcres != -1 ==>
        excresRows == old(excresRows)[currentExcres := old(excresRows)[currentExcres].(itemLabel := newLabel)]
    {
      if currentExcres != -1 {
        excresRows := excresRows[currentExcres := excresRows[currentExcres].(itemLabel := newLabel)];
      }
    }

    function GetCurrentExcresLabel(): (s: string)
      requires Valid()
      reads this
      ensures currentExcres == -1 ==> s == ""
      ensures currentExcres != -1 ==> s == excresRows[currentExcres].itemLabel
    {
      if currentExcres != -1 then excresRows[currentExcres].itemLabel else ""
    }

    function GetCurrentExcresTypeString(): (s: string)
      requires Valid()
      reads this
      ensures currentExcres == -1 ==> s == ""
      ensures currentExcres != -1 ==> s == excresRows[currentExcres].typeString
    {
      if currentExcres != -1 then excresRows[currentExcres].typeString else ""
    }

    function GetCurrentExcresValue(): (v: real)
      requires Valid()
      reads this
      ensures currentExcres == -1 ==> v == 0.0
      ensures currentExcres != -1 ==> v == excresRows[currentExcres].input
    {
      if currentExcres != -1 then excresRows[currentExcres].input else 0.0
    }

    function GetCurrentExcresType(): (code: int)
      requires Valid()
      reads this
      ensures 0 <= code <= 4
      ensures currentExcres == -1 ==> code == 0
      ensures currentExcres != -1 ==> code == KindCode(excresRows[currentExcres].kind)
    {
      if currentExcres != -1 then KindCode(excresRows[currentExcres].kind) else 0
    }

    /** GetExcresIDs: the item labels in ledger order. */
    method GetExcresIDs() returns (ids: seq<string>)
      ensures |ids| == |excresRows|
      ensures forall k :: 0 <= k < |ids| ==> ids[k] == excresRows[k].itemLabel
    {
      ids := [];
      var i := 0;
      while i < |excresRows|
        invariant 0 <= i <= |excresRows| && |ids| == i
        invariant forall k :: 0 <= k < i ==> ids[k] == excresRows[k].itemLabel
      {
        ids := ids + [excresRows[i].itemLabel];
        i := i + 1;
      }
    }

    /** UpdateExcres: recompute every item in index order (the current item
        from the pending value), then refresh the drag areas when the
        subtotal is positive, then rebuild the reporting columns. */
    method UpdateExcres()
      requires Valid() && Computable(Geom(), excresRows, currentExcres, excresValue)
      modifies this`excresRows, this`excresLabels, this`excresTypes, this`excresInputs, this`excresAmounts, this`excresPercs
      ensures Valid()
      ensures excresRows == UpdateExcresResult(Geom(), old(excresRows), currentExcres, excresValue)
      ensures Consolidated()
    {
      ghost var rows := excresRows;
      var g := Geom();
      var amounts := UpdateAmountsInOrder(g, excresRows, currentExcres, excresValue);
      excresRows := RefreshDragAreasInOrder(g, amounts);
      assert AtMostOneMargin(excresRows) by {
        assert forall k :: 0 <= k < |rows| ==> excresRows[k].kind == amounts[k].kind == rows[k].kind;
      }
      ConsolidateExcres();
    }

    /** The reporting columns are the ledger's columns. */
    predicate Consolidated()
      reads this
    {
      |excresLabels| == |excresTypes| == |excresInputs| == |excresAmounts| == |excresPercs| == |excresRows| &&
      forall k :: 0 <= k < |excresRows| ==>
        excresLabels[k] == excresRows[k].itemLabel && excresTypes[k] == excresRows[k].typeString &&
        excresInputs[k] == excresRows[k].input && excresAmounts[k] == excresRows[k].amount &&
        excresPercs[k] == excresRows[k].percTotalCd
    }

    /** ConsolidateExcres: rebuild the label, type, input, amount and share columns. */
    method ConsolidateExcres()
      modifies this`excresLabels, this`excresTypes, this`excresInputs, this`excresAmounts, this`excresPercs
      ensures Consolidated()
    {
      excresLabels, excresTypes, excresInputs, excresAmounts, excresPercs := [], [], [], [], [];
      var i := 0;
      while i < |excresRows|
        invariant 0 <= i <= |excresRows|
        invariant |excresLabels| == |excresTypes| == |excresInputs| == |excresAmounts| == |excresPercs| == i
        invariant forall k :: 0 <= k < i ==>
          excresLabels[k] == excresRows[k].itemLabel && excresTypes[k] == excresRows[k].typeString &&
          excresInputs[k] == excresRows[k].input && excresAmounts[k] == excresRows[k].amount &&
          excresPercs[k] == excresRows[k].percTotalCd
      {
        var r := excresRows[i];
        excresLabels := excresLabels + [r.itemLabel];
        excresTypes := excresTypes + [r.typeString];
        excresInputs := excresInputs + [r.input];
        excresAmounts := excresAmounts + [r.amount];
        excresPercs := excresPercs + [r.percTotalCd];
        i := i + 1;
      }
    }

    /** UpdatePercentageCD: append each geometry row's share of the total Cd,
        set every item's share, and report the drag area and share totals. */
    method UpdatePercentageCD()
      requires Valid()
      requires hasDegenGeom ==> TotalCd(Geom(), excresRows) != 0.0
      modifies this`geoPercTotalCd, this`geomFTotal, this`geomPercTotal, this`excresRows, this`excresFTotal, this`excresPercTotal
      ensures Valid()
      ensures var total := TotalCd(Geom(), old(excresRows));
        geoPercTotalCd == old(geoPercTotalCd) + GeoShares(geoRows, hasDegenGeom, total) &&
        geomFTotal == GeoFTotal(geoRows, hasDegenGeom) &&
        geomPercTotal == GeoPercTotal(geoRows, hasDegenGeom, total) &&
        |excresRows| == |old(excresRows)| &&
        (forall k :: 0 <= k < |excresRows| ==>
          excresRows[k] == old(excresRows)[k].(percTotalCd := ExcresShare(old(excresRows)[k], hasDegenGeom, total))) &&
        excresFTotal == ExcresFTotal(old(excresRows), hasDegenGeom) &&
        excresPercTotal == ExcresPercTotal(old(excresRows), hasDegenGeom, total)
    {
      var degen, rows := hasDegenGeom, excresRows;
      var total := TotalCd(Geom(), rows);
      var shares, gf, gp := GeomShareLoop(geoRows, degen, total);
      var items, ef, ep := ExcresShareLoop(rows, degen, total);
      assert AtMostOneMargin(items) by {
        assert forall k :: 0 <= k < |rows| ==> items[k].kind == rows[k].kind;
      }
      geoPercTotalCd, geomFTotal, geomPercTotal := geoPercTotalCd + shares, gf, gp;
      excresRows, excresFTotal, excresPercTotal := items, ef, ep;
    }

    /** SortMap: group the table rows by ancestor geometry, then order the
        blocks by the chosen key. */
    method SortMap(veh: Vehicle) returns (ghost heads: seq<nat>, ghost splits: seq<nat>)
      requires forall j :: 0 <= j < |tableRows| ==> veh.find(tableRows[j].geomID).Some?
      modifies this`tableRows
      ensures multiset(tableRows) == multiset(old(tableRows))
      ensures Blocks(veh, tableRows, heads, splits) && Closed(veh, tableRows, heads)
      ensures sortBy == SortWettedArea ==> HeadsDescend(ByWettedArea, tableRows, heads)
      ensures sortBy == SortPercCd ==> HeadsDescend(ByPercentCd, tableRows, heads)
    {
      tableRows, heads, splits := TableSort.SortMap(veh, tableRows, sortBy);
    }
  }
}
