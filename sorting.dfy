/** Ordering the rows of the build-up (SortMap and the three sorts it uses).
    Every sort builds its result block by block: a head row, then the rows
    of the head's geometry (its other surfaces and symmetric copies), then
    the rows of geometries grouped under it. */
module TableSort {
  import opened DragRows
  import opened Flags

  /** The column a sort orders its block heads by. */
  datatype SortKey = ByWettedArea | ByPercentCd

  function Key(key: SortKey, r: Row): real
  {
    match key
    case ByWettedArea => r.swet
    case ByPercentCd => r.percTotalCd
  }

  /** Row `r` belongs to a geometry the vehicle knows whose grouped ancestor
      is the geometry of `head`. */
  predicate Incorporated(veh: Vehicle, head: Row, r: Row)
  {
    veh.find(r.geomID).Some? && veh.ancestorOf(r.geomID, r.ancestorGen) == head.geomID
  }

  /** Row `r` goes into the block headed by `head`. */
  predicate Attached(veh: Vehicle, head: Row, r: Row)
  {
    r.geomID == head.geomID || Incorporated(veh, head, r)
  }

  function BlockEnd(heads: seq<nat>, b: nat, n: nat): nat
    requires b < |heads|
  {
    if b + 1 < |heads| then heads[b + 1] else n
  }

  /** `out` is cut into blocks starting at `heads`: in block `b`, the rows
      after the head and before `splits[b]` share its geometry, and the rows
      from `splits[b]` on are grouped under it. */
  predicate Blocks(veh: Vehicle, out: seq<Row>, heads: seq<nat>, splits: seq<nat>)
  {
    |splits| == |heads| && (|out| == 0 <==> |heads| == 0) && (|heads| > 0 ==> heads[0] == 0) &&
    (forall b :: 0 <= b < |heads| ==> heads[b] < splits[b] <= BlockEnd(heads, b, |out|) <= |out|) &&
    (forall b, t :: 0 <= b < |heads| && heads[b] < t < splits[b] && t < |out| && heads[b] < |out| ==>
       out[t].geomID == out[heads[b]].geomID) &&
    (forall b, t :: 0 <= b < |heads| && splits[b] <= t < BlockEnd(heads, b, |out|) && t < |out| && heads[b] < |out| ==>
       Incorporated(veh, out[heads[b]], out[t]) && out[t].geomID != out[heads[b]].geomID)
  }

  /** No row after a block belongs in it. */
  predicate Closed(veh: Vehicle, out: seq<Row>, heads: seq<nat>)
  {
    forall b, t :: 0 <= b < |heads| && heads[b] < |out| && BlockEnd(heads, b, |out|) <= t < |out| ==>
      !Attached(veh, out[heads[b]], out[t])
  }

  /** Every head has the largest key from its position on. */
  predicate HeadsDescend(key: SortKey, out: seq<Row>, heads: seq<nat>)
  {
    forall b, t :: 0 <= b < |heads| && heads[b] <= t < |out| ==> Key(key, out[heads[b]]) >= Key(key, out[t])
  }

  /** What appending one block does: `flags` and `out` are `isSorted` and
      `temp` after the block headed by `rows[h]`; `idx` says which row each
      appended entry is, and every row still unplaced is not attached to the head. */
  predicate GroupPushed(veh: Vehicle, rows: seq<Row>, h: nat, isSorted: seq<bool>, temp: seq<Row>,
                        flags: seq<bool>, out: seq<Row>, split: nat, idx: seq<nat>)
  {
    h < |rows| && |isSorted| == |rows| && |flags| == |rows| && flags[h] &&
    (forall j :: 0 <= j < |rows| && isSorted[j] ==> flags[j]) &&
    CountFalse(flags) < CountFalse(isSorted) &&
    |temp| < split <= |out| && out[..|temp|] == temp && out[|temp|] == rows[h] &&
    (forall t :: |temp| < t < split ==> out[t].geomID == rows[h].geomID) &&
    (forall t :: split <= t < |out| ==> Incorporated(veh, rows[h], out[t]) && out[t].geomID != rows[h].geomID) &&
    (forall j :: 0 <= j < |rows| && !flags[j] ==> !Attached(veh, rows[h], rows[j])) &&
    Appended(rows, isSorted, out, |temp|, idx)
  }

  /** Entries `base..` of `out` are rows `idx` of `rows`, none of which was
      set in `flags`. */
  predicate Appended(rows: seq<Row>, flags: seq<bool>, out: seq<Row>, base: nat, idx: seq<nat>)
    requires |flags| == |rows|
  {
    base <= |out| && |idx| == |out| - base &&
    forall t :: 0 <= t < |idx| ==> idx[t] < |rows| && !flags[idx[t]] && out[base + t] == rows[idx[t]]
  }

  /** Flags only get set. */
  predicate Grows(before: seq<bool>, after: seq<bool>)
  {
    |after| == |before| && forall k :: 0 <= k < |before| && before[k] ==> after[k]
  }

  /** Mark row `j` placed and push it: one step of the reflected-surfaces
      and incorporated-geometries loops. */
  method MarkAndPush(rows: seq<Row>, j: nat, flags0: seq<bool>, out0: seq<Row>, flags: seq<bool>, out: seq<Row>,
                     ghost idx: seq<nat>)
    returns (flags': seq<bool>, out': seq<Row>, ghost idx': seq<nat>)
    requires |flags0| == |rows| && Grows(flags0, flags) && CountFalse(flags) <= CountFalse(flags0)
    requires j < |rows| && !flags[j]
    requires multiset(out) == Picked(rows, flags)
    requires |out| >= |out0| && out[..|out0|] == out0 && Appended(rows, flags0, out, |out0|, idx)
    ensures flags' == flags[j := true] && out' == out + [rows[j]]
    ensures Grows(flags0, flags') && CountFalse(flags') <= CountFalse(flags0)
    ensures multiset(out') == Picked(rows, flags')
    ensures |out'| >= |out0| && out'[..|out0|] == out0 && Appended(rows, flags0, out', |out0|, idx')
  {
    PickedMark(rows, flags, j);
    CountFalseMark(flags, j);
    flags' := flags[j := true];
    out' := out + [rows[j]];
    idx' := idx + [j];
    assert out'[..|out0|] == out[..|out0|];
    assert !flags0[j];
    forall t | 0 <= t < |idx'|
      ensures idx'[t] < |rows| && !flags0[idx'[t]] && out'[|out0| + t] == rows[idx'[t]]
    {
      if t < |idx| {
        assert out'[|out0| + t] == out[|out0| + t];
      }
    }
  }

  /** The "reflected surfaces" loop: push every unplaced row of the geometry of `rows[h]`. */
  method PushReflected(rows: seq<Row>, h: nat, flags0: seq<bool>, out0: seq<Row>)
    returns (flags: seq<bool>, out: seq<Row>, ghost idx: seq<nat>)
    requires |flags0| == |rows| && h < |rows| && flags0[h]
    requires multiset(out0) == Picked(rows, flags0)
    ensures Grows(flags0, flags) && CountFalse(flags) <= CountFalse(flags0)
    ensures multiset(out) == Picked(rows, flags)
    ensures |out| >= |out0| && out[..|out0|] == out0 && Appended(rows, flags0, out, |out0|, idx)
    ensures forall t :: |out0| <= t < |out| ==> out[t].geomID == rows[h].geomID
    ensures forall k :: 0 <= k < |rows| && !flags[k] ==> rows[k].geomID != rows[h].geomID
  {
    var n := |rows|;
    flags, out, idx := flags0, out0, [];
    var j := 0;
    while j < n
      invariant 0 <= j <= n && Grows(flags0, flags) && CountFalse(flags) <= CountFalse(flags0)
      invariant multiset(out) == Picked(rows, flags)
      invariant |out| >= |out0| && out[..|out0|] == out0 && Appended(rows, flags0, out, |out0|, idx)
      invariant forall t :: |out0| <= t < |out| ==> out[t].geomID == rows[h].geomID
      invariant forall k :: 0 <= k < j && !flags[k] ==> rows[k].geomID != rows[h].geomID
    {
      if rows[h].geomID == rows[j].geomID && h != j && !flags[j] {
        flags, out, idx := MarkAndPush(rows, j, flags0, out0, flags, out, idx);
      }
      j := j + 1;
    }
  }

  /** The "incorporated geoms" loop: push every unplaced row of a geometry
      grouped under the geometry of `rows[h]`. */
  method PushIncorporated(veh: Vehicle, rows: seq<Row>, h: nat, flags0: seq<bool>, out0: seq<Row>)
    returns (flags: seq<bool>, out: seq<Row>, ghost idx: seq<nat>)
    requires |flags0| == |rows| && h < |rows| && flags0[h]
    requires multiset(out0) == Picked(rows, flags0)
    requires forall k :: 0 <= k < |rows| && !flags0[k] ==> rows[k].geomID != rows[h].geomID
    ensures Grows(flags0, flags) && CountFalse(flags) <= CountFalse(flags0)
    ensures multiset(out) == Picked(rows, flags)
    ensures |out| >= |out0| && out[..|out0|] == out0 && Appended(rows, flags0, out, |out0|, idx)
    ensures forall t :: |out0| <= t < |out| ==> Incorporated(veh, rows[h], out[t]) && out[t].geomID != rows[h].geomID
    ensures forall k :: 0 <= k < |rows| && !flags[k] ==> !Attached(veh, rows[h], rows[k])
  {
    var n := |rows|;
    flags, out, idx := flags0, out0, [];
    var j := 0;
    while j < n
      invariant 0 <= j <= n && Grows(flags0, flags) && CountFalse(flags) <= CountFalse(flags0)
      invariant multiset(out) == Picked(rows, flags)
      invariant |out| >= |out0| && out[..|out0|] == out0 && Appended(rows, flags0, out, |out0|, idx)
      invariant forall t :: |out0| <= t < |out| ==> Incorporated(veh, rows[h], out[t]) && out[t].geomID != rows[h].geomID
      invariant forall k :: 0 <= k < n && !flags[k] ==> rows[k].geomID != rows[h].geomID
      invariant forall k :: 0 <= k < j && !flags[k] ==> !Incorporated(veh, rows[h], rows[k])
    {
      var found := veh.find(rows[j].geomID);
      if found.Some? {
        if rows[h].geomID == veh.ancestorOf(rows[j].geomID, rows[j].ancestorGen) && h != j && !flags[j] {
          flags, out, idx := MarkAndPush(rows, j, flags0, out0, flags, out, idx);
        }
      }
      j := j + 1;
    }
  }

  /** One block of a sort: mark and push the head `rows[h]`, then its
      reflected surfaces, then its incorporated geometries. */
  method PushGroup(veh: Vehicle, rows: seq<Row>, h: nat, isSorted: seq<bool>, temp: seq<Row>)
    returns (flags: seq<bool>, out: seq<Row>, ghost split: nat, ghost idx: seq<nat>)
    requires |isSorted| == |rows| && h < |rows| && !isSorted[h]
    requires multiset(temp) == Picked(rows, isSorted)
    ensures GroupPushed(veh, rows, h, isSorted, temp, flags, out, split, idx)
    ensures multiset(out) == Picked(rows, flags)
  {
    PickedMark(rows, isSorted, h);
    CountFalseMark(isSorted, h);
    var marked := isSorted[h := true];
    var withHead := temp + [rows[h]];
    assert withHead[..|temp|] == temp;
    assert Appended(rows, isSorted, withHead, |temp|, [h]);
    var marked2, reflected;
    ghost var idx1, idx2;
    marked2, reflected, idx1 := PushReflected(rows, h, marked, withHead);
    AppendedCompose(rows, isSorted, marked, |temp|, withHead, reflected, [h], idx1);
    split := |reflected|;
    flags, out, idx2 := PushIncorporated(veh, rows, h, marked2, reflected);
    AppendedCompose(rows, isSorted, marked2, |temp|, reflected, out, [h] + idx1, idx2);
    idx := [h] + idx1 + idx2;
    assert out[..|withHead|] == withHead by {
      assert out[..|withHead|] == reflected[..|withHead|];
    }
    assert out[..|temp|] == temp by {
      assert out[..|temp|] == withHead[..|temp|];
    }
  }

  /** Two appends in a row, the second only of rows the first left unset, are one append. */
  lemma AppendedCompose(rows: seq<Row>, f0: seq<bool>, f1: seq<bool>, base: nat, mid: seq<Row>, out: seq<Row>,
                        i1: seq<nat>, i2: seq<nat>)
    requires |f0| == |rows| && Grows(f0, f1)
    requires Appended(rows, f0, mid, base, i1)
    requires |out| >= |mid| && out[..|mid|] == mid && Appended(rows, f1, out, |mid|, i2)
    ensures Appended(rows, f0, out, base, i1 + i2)
  {
    forall t | 0 <= t < |i1 + i2|
      ensures (i1 + i2)[t] < |rows| && !f0[(i1 + i2)[t]] && out[base + t] == rows[(i1 + i2)[t]]
    {
      if t < |i1| {
        assert out[base + t] == mid[base + t];
      } else {
        assert (i1 + i2)[t] == i2[t - |i1|];
      }
    }
  }

  /** The state a sort keeps between blocks: `temp` holds exactly the placed
      rows, cut into closed blocks, and no unplaced row belongs to a block
      already built. */
  predicate Placed(veh: Vehicle, rows: seq<Row>, isSorted: seq<bool>, temp: seq<Row>, heads: seq<nat>, splits: seq<nat>)
  {
    |isSorted| == |rows| && multiset(temp) == Picked(rows, isSorted) &&
    Blocks(veh, temp, heads, splits) && Closed(veh, temp, heads) &&
    forall b, j :: 0 <= b < |heads| && heads[b] < |temp| && 0 <= j < |rows| && !isSorted[j] ==>
      !Attached(veh, temp[heads[b]], rows[j])
  }

  /** The ordering a key sort keeps between blocks: heads descend, and no
      unplaced row has a larger key than a head already placed. */
  predicate KeyOrdered(key: SortKey, rows: seq<Row>, isSorted: seq<bool>, temp: seq<Row>, heads: seq<nat>)
  {
    |isSorted| == |rows| && HeadsDescend(key, temp, heads) &&
    forall b, j :: 0 <= b < |heads| && heads[b] < |temp| && 0 <= j < |rows| && !isSorted[j] ==>
      Key(key, rows[j]) <= Key(key, temp[heads[b]])
  }

  /** Appending a block keeps the block structure. */
  lemma BlocksExtend(veh: Vehicle, temp: seq<Row>, heads: seq<nat>, splits: seq<nat>, out: seq<Row>, split: nat)
    requires Blocks(veh, temp, heads, splits)
    requires |temp| < split <= |out| && out[..|temp|] == temp
    requires forall t :: |temp| < t < split ==> out[t].geomID == out[|temp|].geomID
    requires forall t :: split <= t < |out| ==> Incorporated(veh, out[|temp|], out[t]) && out[t].geomID != out[|temp|].geomID
    ensures Blocks(veh, out, heads + [|temp|], splits + [split])
  {
    var hs, ss := heads + [|temp|], splits + [split];
    forall b | 0 <= b < |heads|
      ensures BlockEnd(hs, b, |out|) == BlockEnd(heads, b, |temp|)
    {
    }
    forall b, t | 0 <= b < |hs| && hs[b] < t < ss[b] && t < |out| && hs[b] < |out|
      ensures out[t].geomID == out[hs[b]].geomID
    {
      if b < |heads| {
        assert out[t] == temp[t] && out[heads[b]] == temp[heads[b]];
      }
    }
    forall b, t | 0 <= b < |hs| && ss[b] <= t < BlockEnd(hs, b, |out|) && t < |out| && hs[b] < |out|
      ensures Incorporated(veh, out[hs[b]], out[t]) && out[t].geomID != out[hs[b]].geomID
    {
      if b < |heads| {
        assert out[t] == temp[t] && out[heads[b]] == temp[heads[b]];
      }
    }
  }

  /** Appending a block keeps the sort's state. */
  lemma AddBlock(veh: Vehicle, rows: seq<Row>, isSorted: seq<bool>, temp: seq<Row>, heads: seq<nat>, splits: seq<nat>,
                 h: nat, flags: seq<bool>, out: seq<Row>, split: nat, idx: seq<nat>)
    requires Placed(veh, rows, isSorted, temp, heads, splits)
    requires GroupPushed(veh, rows, h, isSorted, temp, flags, out, split, idx) && multiset(out) == Picked(rows, flags)
    ensures Placed(veh, rows, flags, out, heads + [|temp|], splits + [split])
  {
    BlocksExtend(veh, temp, heads, splits, out, split);
    var hs := heads + [|temp|];
    forall b, t | 0 <= b < |hs| && hs[b] < |out| && BlockEnd(hs, b, |out|) <= t < |out|
      ensures !Attached(veh, out[hs[b]], out[t])
    {
      assert b < |heads| && BlockEnd(hs, b, |out|) == BlockEnd(heads, b, |temp|);
      assert out[heads[b]] == temp[heads[b]];
      if t < |temp| {
        assert out[t] == temp[t];
      } else {
        var k := idx[t - |temp|];
        assert out[t] == rows[k] && !isSorted[k];
      }
    }
    forall b, j | 0 <= b < |hs| && hs[b] < |out| && 0 <= j < |rows| && !flags[j]
      ensures !Attached(veh, out[hs[b]], rows[j])
    {
      if b < |heads| {
        assert out[heads[b]] == temp[heads[b]];
      }
    }
  }

  /** Appending a block headed by a largest unplaced row keeps a key sort's ordering. */
  lemma AddBlockKeyed(key: SortKey, veh: Vehicle, rows: seq<Row>, isSorted: seq<bool>, temp: seq<Row>, heads: seq<nat>,
                      h: nat, flags: seq<bool>, out: seq<Row>, split: nat, idx: seq<nat>)
    requires KeyOrdered(key, rows, isSorted, temp, heads)
    requires forall b :: 0 <= b < |heads| ==> heads[b] < |temp|
    requires GroupPushed(veh, rows, h, isSorted, temp, flags, out, split, idx)
    requires forall j :: 0 <= j < |rows| && !isSorted[j] ==> Key(key, rows[j]) <= Key(key, rows[h])
    ensures KeyOrdered(key, rows, flags, out, heads + [|temp|])
  {
    var hs := heads + [|temp|];
    forall b, t | 0 <= b < |hs| && hs[b] <= t < |out|
      ensures Key(key, out[hs[b]]) >= Key(key, out[t])
    {
      if b < |heads| {
        assert out[heads[b]] == temp[heads[b]];
      }
      if t < |temp| {
        assert out[t] == temp[t];
      } else {
        var k := idx[t - |temp|];
        assert out[t] == rows[k] && !isSorted[k];
      }
    }
    forall b, j | 0 <= b < |hs| && hs[b] < |out| && 0 <= j < |rows| && !flags[j]
      ensures Key(key, rows[j]) <= Key(key, out[hs[b]])
    {
      if b < |heads| {
        assert out[heads[b]] == temp[heads[b]];
      }
    }
  }

  /** The search for the head of the next key-sort block: starting from the
      cursor `i`, the unplaced row with the largest key, a later row replacing
      the candidate only when its key is strictly larger. */
  method FindMax(rows: seq<Row>, isSorted: seq<bool>, i: nat, key: SortKey) returns (m: nat)
    requires |isSorted| == |rows| && i < |rows| && !isSorted[i]
    ensures m < |rows| && !isSorted[m]
    ensures forall j :: 0 <= j < |rows| && !isSorted[j] ==> Key(key, rows[j]) <= Key(key, rows[m])
    ensures m == i || Key(key, rows[m]) > Key(key, rows[i])
    ensures m != i ==> forall k :: 0 <= k < m && !isSorted[k] ==> Key(key, rows[k]) < Key(key, rows[m])
  {
    m := i;
    var j := 0;
    while j < |rows|
      invariant 0 <= j <= |rows| && m < |rows| && !isSorted[m]
      invariant forall k :: 0 <= k < j && !isSorted[k] ==> Key(key, rows[k]) <= Key(key, rows[m])
      invariant m == i || Key(key, rows[m]) > Key(key, rows[i])
      invariant m != i ==> m < j && forall k :: 0 <= k < m && !isSorted[k] ==> Key(key, rows[k]) < Key(key, rows[m])
      invariant Key(key, rows[i]) <= Key(key, rows[m])
    {
      if !isSorted[j] {
        if Key(key, rows[j]) > Key(key, rows[m]) {
          m := j;
        }
      }
      j := j + 1;
    }
  }

  /** One block of a key sort: the cursor `i` is on an unplaced row, and the
      block is headed by the unplaced row with the largest key. */
  method PlaceLargest(veh: Vehicle, rows: seq<Row>, key: SortKey, i: nat, isSorted: seq<bool>, temp: seq<Row>,
                      ghost heads: seq<nat>, ghost splits: seq<nat>)
    returns (flags: seq<bool>, out: seq<Row>, ghost heads': seq<nat>, ghost splits': seq<nat>)
    requires i < |rows| && |isSorted| == |rows| && !isSorted[i]
    requires Placed(veh, rows, isSorted, temp, heads, splits)
    requires KeyOrdered(key, rows, isSorted, temp, heads)
    ensures Placed(veh, rows, flags, out, heads', splits')
    ensures KeyOrdered(key, rows, flags, out, heads')
    ensures |flags| == |rows| && CountFalse(flags) < CountFalse(isSorted)
  {
    var m := FindMax(rows, isSorted, i, key);
    ghost var split, idx;
    flags, out, split, idx := PushGroup(veh, rows, m, isSorted, temp);
    AddBlock(veh, rows, isSorted, temp, heads, splits, m, flags, out, split, idx);
    AddBlockKeyed(key, veh, rows, isSorted, temp, heads, m, flags, out, split, idx);
    heads', splits' := heads + [|temp|], splits + [split];
  }

  /** The loop shared by SortMapByWettedArea and SortMapByPercentageCD: a
      cursor cycles over the rows until every row is placed; on an unplaced
      row it starts a block headed by the unplaced row with the largest key. */
  method SortByKey(veh: Vehicle, rows: seq<Row>, key: SortKey)
    returns (sorted: seq<Row>, ghost heads: seq<nat>, ghost splits: seq<nat>)
    ensures multiset(sorted) == multiset(rows)
    ensures Blocks(veh, sorted, heads, splits) && Closed(veh, sorted, heads)
    ensures HeadsDescend(key, sorted, heads)
  {
    var n := |rows|;
    var isSorted := seq(n, k => false);
    var temp: seq<Row> := [];
    heads, splits := [], [];
    PickedNone(rows, isSorted);
    var i: nat := 0;
    var done := CheckAllTrue(isSorted);
    while !done
      invariant |isSorted| == n && (i < n || n == 0)
      invariant done <==> forall k :: 0 <= k < n ==> isSorted[k]
      invariant Placed(veh, rows, isSorted, temp, heads, splits)
      invariant KeyOrdered(key, rows, isSorted, temp, heads)
      decreases CountFalse(isSorted), Gap(isSorted, i)
    {
      var next: nat := if i != n - 1 then i + 1 else 0;
      if !isSorted[i] {
        isSorted, temp, heads, splits := PlaceLargest(veh, rows, key, i, isSorted, temp, heads, splits);
      } else {
        GapStep(isSorted, i, next);
      }
      i := next;
      done := CheckAllTrue(isSorted);
    }
    PickedAll(rows, isSorted);
    sorted := temp;
  }

  /** SortMapByWettedArea: blocks headed by the largest wetted area first. */
  method SortMapByWettedArea(veh: Vehicle, rows: seq<Row>)
    returns (sorted: seq<Row>, ghost heads: seq<nat>, ghost splits: seq<nat>)
    ensures multiset(sorted) == multiset(rows)
    ensures Blocks(veh, sorted, heads, splits) && Closed(veh, sorted, heads)
    ensures HeadsDescend(ByWettedArea, sorted, heads)
  {
    sorted, heads, splits := SortByKey(veh, rows, ByWettedArea);
  }

  /** SortMapByPercentageCD: blocks headed by the largest share of the total drag first. */
  method SortMapByPercentageCD(veh: Vehicle, rows: seq<Row>)
    returns (sorted: seq<Row>, ghost heads: seq<nat>, ghost splits: seq<nat>)
    ensures multiset(sorted) == multiset(rows)
    ensures Blocks(veh, sorted, heads, splits) && Closed(veh, sorted, heads)
    ensures HeadsDescend(ByPercentCd, sorted, heads)
  {
    sorted, heads, splits := SortByKey(veh, rows, ByPercentCd);
  }

  /** Input row `k` is among the first `n` entries of `out`. */
  predicate PlacedBefore(rows: seq<Row>, out: seq<Row>, n: nat, k: nat)
    requires n <= |out| && k < |rows|
  {
    rows[k] in multiset(out[..n])
  }

  /** Block `b` is headed by row `src[b]` of the input, the heads come in
      input order, and every input row before a head is placed in an earlier block. */
  predicate HeadsInInputOrder(rows: seq<Row>, out: seq<Row>, heads: seq<nat>, src: seq<nat>)
  {
    |src| == |heads| &&
    (forall b :: 0 <= b < |heads| ==> src[b] < |rows| && heads[b] < |out| && out[heads[b]] == rows[src[b]]) &&
    (forall b, c :: 0 <= b < c < |heads| ==> src[b] < src[c]) &&
    (forall b, k :: 0 <= b < |heads| && 0 <= k < src[b] ==> PlacedBefore(rows, out, heads[b], k))
  }

  /** A block headed by row `i` of the input, placed after every earlier row,
      keeps the heads in input order. */
  lemma HeadsInInputOrderExtend(rows: seq<Row>, temp: seq<Row>, out: seq<Row>, heads: seq<nat>, src: seq<nat>, i: nat)
    requires HeadsInInputOrder(rows, temp, heads, src)
    requires forall b :: 0 <= b < |heads| ==> src[b] < i
    requires i < |rows| && |temp| < |out| && out[..|temp|] == temp && out[|temp|] == rows[i]
    requires forall k :: 0 <= k < i ==> PlacedBefore(rows, temp, |temp|, k)
    ensures HeadsInInputOrder(rows, out, heads + [|temp|], src + [i])
  {
    forall b | 0 <= b < |heads|
      ensures out[..heads[b]] == temp[..heads[b]] && out[heads[b]] == temp[heads[b]]
    {
      assert out[..heads[b]] == out[..|temp|][..heads[b]];
    }
    forall b, k | 0 <= b < |heads| && 0 <= k < src[b]
      ensures PlacedBefore(rows, out, heads[b], k)
    {
      assert PlacedBefore(rows, temp, heads[b], k);
      assert out[..heads[b]] == temp[..heads[b]] by {
        assert out[..heads[b]] == out[..|temp|][..heads[b]];
      }
    }
    forall k | 0 <= k < i
      ensures PlacedBefore(rows, out, |temp|, k)
    {
      assert PlacedBefore(rows, temp, |temp|, k);
    }
  }

  /** The rows before the cursor, all placed, are all in `temp`. */
  lemma EarlierPlaced(rows: seq<Row>, i: nat, isSorted: seq<bool>, temp: seq<Row>)
    requires i <= |rows| && |isSorted| == |rows| && multiset(temp) == Picked(rows, isSorted)
    requires forall k :: 0 <= k < i ==> isSorted[k]
    ensures forall k :: 0 <= k < i ==> PlacedBefore(rows, temp, |temp|, k)
  {
    forall k | 0 <= k < i
      ensures PlacedBefore(rows, temp, |temp|, k)
    {
      PickedHas(rows, isSorted, k);
      assert temp[..|temp|] == temp;
    }
  }

  /** The block headed by row `i` keeps the grouped sort's state. */
  lemma InputOrderStep(veh: Vehicle, rows: seq<Row>, i: nat, isSorted: seq<bool>, temp: seq<Row>,
                       heads: seq<nat>, splits: seq<nat>, src: seq<nat>,
                       flags: seq<bool>, out: seq<Row>, split: nat, idx: seq<nat>)
    requires i < |rows| && |isSorted| == |rows| && !isSorted[i]
    requires Placed(veh, rows, isSorted, temp, heads, splits)
    requires forall k :: 0 <= k < i ==> isSorted[k]
    requires HeadsInInputOrder(rows, temp, heads, src)
    requires forall b :: 0 <= b < |heads| ==> src[b] < i
    requires GroupPushed(veh, rows, i, isSorted, temp, flags, out, split, idx) && multiset(out) == Picked(rows, flags)
    ensures Placed(veh, rows, flags, out, heads + [|temp|], splits + [split])
    ensures forall k :: 0 <= k <= i ==> flags[k]
    ensures HeadsInInputOrder(rows, out, heads + [|temp|], src + [i])
  {
    EarlierPlaced(rows, i, isSorted, temp);
    AddBlock(veh, rows, isSorted, temp, heads, splits, i, flags, out, split, idx);
    HeadsInInputOrderExtend(rows, temp, out, heads, src, i);
  }

  /** One step of SortMainTableVecByGroupedAncestorGeoms: row `i`, not yet
      placed while every earlier row is, heads a new block. */
  method PlaceInInputOrder(veh: Vehicle, rows: seq<Row>, i: nat, isSorted: seq<bool>, temp: seq<Row>,
                           ghost heads: seq<nat>, ghost splits: seq<nat>, ghost src: seq<nat>)
    returns (flags: seq<bool>, out: seq<Row>, ghost heads': seq<nat>, ghost splits': seq<nat>, ghost src': seq<nat>)
    requires i < |rows| && |isSorted| == |rows| && !isSorted[i]
    requires Placed(veh, rows, isSorted, temp, heads, splits)
    requires forall k :: 0 <= k < i ==> isSorted[k]
    requires HeadsInInputOrder(rows, temp, heads, src)
    requires forall b :: 0 <= b < |heads| ==> src[b] < i
    ensures Placed(veh, rows, flags, out, heads', splits')
    ensures forall k :: 0 <= k <= i ==> flags[k]
    ensures HeadsInInputOrder(rows, out, heads', src')
    ensures forall b :: 0 <= b < |heads'| ==> src'[b] <= i
  {
    ghost var split, idx;
    flags, out, split, idx := PushGroup(veh, rows, i, isSorted, temp);
    InputOrderStep(veh, rows, i, isSorted, temp, heads, splits, src, flags, out, split, idx);
    heads', splits', src' := heads + [|temp|], splits + [split], src + [i];
  }

  /** SortMainTableVecByGroupedAncestorGeoms: the rows in their own order,
      each unplaced row heading a block of its geometry's rows and the rows of
      geometries grouped under it. The source looks every row's geometry up
      without checking it, so every row's geometry must exist. */
  method SortMainTableVecByGroupedAncestorGeoms(veh: Vehicle, rows: seq<Row>)
    returns (sorted: seq<Row>, ghost heads: seq<nat>, ghost splits: seq<nat>, ghost src: seq<nat>)
    requires forall j :: 0 <= j < |rows| ==> veh.find(rows[j].geomID).Some?
    ensures multiset(sorted) == multiset(rows)
    ensures Blocks(veh, sorted, heads, splits) && Closed(veh, sorted, heads)
    ensures HeadsInInputOrder(rows, sorted, heads, src)
  {
    var n := |rows|;
    var isSorted := seq(n, k => false);
    var temp: seq<Row> := [];
    heads, splits, src := [], [], [];
    PickedNone(rows, isSorted);
    for i := 0 to n
      invariant Placed(veh, rows, isSorted, temp, heads, splits)
      invariant forall k :: 0 <= k < i ==> isSorted[k]
      invariant HeadsInInputOrder(rows, temp, heads, src)
      invariant forall b :: 0 <= b < |heads| ==> src[b] < i
    {
      if !isSorted[i] {
        isSorted, temp, heads, splits, src := PlaceInInputOrder(veh, rows, i, isSorted, temp, heads, splits, src);
      }
    }
    PickedAll(rows, isSorted);
    sorted := temp;
  }

  /** How SortMap orders the rows after grouping them (PD_SORT_NONE,
      PD_SORT_WETTED_AREA, PD_SORT_PERC_CD). */
  datatype SortBy = SortNone | SortWettedArea | SortPercCd

  /** SortMap: group the rows under their ancestors, then order the blocks by
      the chosen column. */
  method SortMap(veh: Vehicle, rows: seq<Row>, sortBy: SortBy)
    returns (sorted: seq<Row>, ghost heads: seq<nat>, ghost splits: seq<nat>)
    requires forall j :: 0 <= j < |rows| ==> veh.find(rows[j].geomID).Some?
    ensures multiset(sorted) == multiset(rows)
    ensures Blocks(veh, sorted, heads, splits) && Closed(veh, sorted, heads)
    ensures sortBy == SortWettedArea ==> HeadsDescend(ByWettedArea, sorted, heads)
    ensures sortBy == SortPercCd ==> HeadsDescend(ByPercentCd, sorted, heads)
  {
    ghost var src;
    sorted, heads, splits, src := SortMainTableVecByGroupedAncestorGeoms(veh, rows);
    match sortBy
    case SortNone =>
    case SortWettedArea =>
      var grouped := sorted;
      sorted, heads, splits := SortMapByWettedArea(veh, grouped);
    case SortPercCd =>
      var grouped := sorted;
      sorted, heads, splits := SortMapByPercentageCD(veh, grouped);
  }

  // ---------------------------------------------------------------------
  // Worked examples of the wetted-area sort's contract.

  /** The first block of a sorted table is its head alone when no other row
      shares the head's geometry or is grouped under it. */
  lemma LoneHead(veh: Vehicle, sorted: seq<Row>, heads: seq<nat>, splits: seq<nat>)
    requires Blocks(veh, sorted, heads, splits) && |sorted| > 1
    requires !Attached(veh, sorted[0], sorted[1])
    ensures |heads| > 1 && heads[1] == 1
  {
    assert heads[0] == 0;
  }

  /** A head row's key is at least that of every row from its position on. */
  lemma HeadAtLeast(key: SortKey, sorted: seq<Row>, heads: seq<nat>, b: nat, x: Row)
    requires HeadsDescend(key, sorted, heads) && b < |heads| && heads[b] < |sorted|
    requires x in multiset(sorted[heads[b]..])
    ensures Key(key, sorted[heads[b]]) >= Key(key, x)
  {
    var t :| 0 <= t < |sorted| - heads[b] && sorted[heads[b]..][t] == x;
    assert sorted[heads[b] + t] == x;
  }

  /** The first row of a key-sorted table has the largest key of all its rows. */
  lemma FirstRowLargest(veh: Vehicle, key: SortKey, sorted: seq<Row>, heads: seq<nat>, splits: seq<nat>, x: Row)
    requires Blocks(veh, sorted, heads, splits) && HeadsDescend(key, sorted, heads)
    requires x in multiset(sorted)
    ensures Key(key, sorted[0]) >= Key(key, x)
  {
    assert sorted[0..] == sorted;
    HeadAtLeast(key, sorted, heads, 0, x);
  }

  /** After a head come exactly the other rows of its geometry: a later row
      shares the head's geometry if and only if it lies before the block's split. */
  lemma BlockGathersGeometry(veh: Vehicle, sorted: seq<Row>, heads: seq<nat>, splits: seq<nat>, b: nat, t: nat)
    requires Blocks(veh, sorted, heads, splits) && Closed(veh, sorted, heads)
    requires b < |heads| && heads[b] < t < |sorted|
    ensures sorted[t].geomID == sorted[heads[b]].geomID <==> t < splits[b]
  {
    if t >= splits[b] && t >= BlockEnd(heads, b, |sorted|) {
      assert !Attached(veh, sorted[heads[b]], sorted[t]);
    }
  }

  /** The row with the largest key heads a sorted table, and the rest is
      what remains. */
  lemma LargestFirst(key: SortKey, sorted: seq<Row>, heads: seq<nat>, x: Row, others: seq<Row>)
    requires |sorted| > 0 && |heads| > 0 && heads[0] == 0 && HeadsDescend(key, sorted, heads)
    requires multiset(sorted) == multiset(others + [x])
    requires forall t :: 0 <= t < |others| ==> Key(key, others[t]) < Key(key, x)
    ensures sorted[0] == x && multiset(sorted[1..]) == multiset(others)
  {
    assert sorted[0..] == sorted;
    HeadAtLeast(key, sorted, heads, 0, x);
    assert sorted[0] in multiset(others + [x]);
    assert sorted[0] !in multiset(others);
    assert sorted == [x] + sorted[1..];
    calc {
      multiset(sorted[1..]) + multiset{x};
      multiset([x] + sorted[1..]);
      multiset(others + [x]);
      multiset(others) + multiset{x};
    }
    assert forall y :: multiset(sorted[1..])[y] == multiset(others)[y] by {
      forall y
        ensures multiset(sorted[1..])[y] == multiset(others)[y]
      {
        assert (multiset(sorted[1..]) + multiset{x})[y] == (multiset(others) + multiset{x})[y];
      }
    }
  }

  /** A (10) and B (5) are two surfaces of one geometry, C (20) is another
      geometry that is not grouped under A's: every result the wetted-area
      sort may return is [C, A, B]. */
  lemma WettedAreaThreeRows(veh: Vehicle, a: Row, b: Row, c: Row,
                            sorted: seq<Row>, heads: seq<nat>, splits: seq<nat>)
    requires a.geomID == b.geomID && a.geomID != c.geomID
    requires veh.ancestorOf(a.geomID, a.ancestorGen) == a.geomID && veh.ancestorOf(b.geomID, b.ancestorGen) == b.geomID
    requires a.swet == 10.0 && b.swet == 5.0 && c.swet == 20.0
    requires multiset(sorted) == multiset([a, b, c])
    requires Blocks(veh, sorted, heads, splits)
    requires HeadsDescend(ByWettedArea, sorted, heads)
    ensures sorted == [c, a, b]
  {
    assert |sorted| == 3 by {
      assert |multiset(sorted)| == |multiset([a, b, c])|;
    }
    assert [a, b, c] == [a, b] + [c];
    LargestFirst(ByWettedArea, sorted, heads, c, [a, b]);
    SecondBlock(veh, a, b, c, sorted, heads, splits);
    assert sorted == [sorted[0], sorted[1], sorted[2]];
  }

  /** After C, the rest of the three-row table is the block A, B. */
  lemma SecondBlock(veh: Vehicle, a: Row, b: Row, c: Row, sorted: seq<Row>, heads: seq<nat>, splits: seq<nat>)
    requires a.geomID == b.geomID && a.geomID != c.geomID
    requires veh.ancestorOf(a.geomID, a.ancestorGen) == a.geomID && veh.ancestorOf(b.geomID, b.ancestorGen) == b.geomID
    requires a.swet == 10.0 && b.swet == 5.0
    requires |sorted| == 3 && sorted[0] == c && multiset(sorted[1..]) == multiset([a, b])
    requires Blocks(veh, sorted, heads, splits)
    requires HeadsDescend(ByWettedArea, sorted, heads)
    ensures sorted[1] == a && sorted[2] == b
  {
    var rest := sorted[1..];
    assert rest[0] in multiset(rest);
    LoneHead(veh, sorted, heads, splits);
    HeadAtLeast(ByWettedArea, sorted, heads, 1, a);
    assert sorted[1] == a;
    assert multiset(rest[1..]) == multiset([b]) by {
      assert rest == [a] + rest[1..];
    }
    assert rest[1] in multiset(rest[1..]);
  }
}
