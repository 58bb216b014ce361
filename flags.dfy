/** The `isSorted` flag vectors of the sorts: which rows are already placed,
    how many are left, and how far the cursor is from the next unplaced row. */
module Flags {

  /** CheckAllTrue: every flag is set. */
  method CheckAllTrue(vec: seq<bool>) returns (r: bool)
    ensures r <==> forall k :: 0 <= k < |vec| ==> vec[k]
  {
    var i := 0;
    while i < |vec|
      invariant 0 <= i <= |vec|
      invariant forall k :: 0 <= k < i ==> vec[k]
    {
      if !vec[i] {
        return false;
      }
      i := i + 1;
    }
    return true;
  }

  /** Number of flags not set. */
  function CountFalse(flags: seq<bool>): (c: nat)
    ensures c <= |flags|
  {
    if |flags| == 0 then 0
    else CountFalse(flags[..|flags| - 1]) + (if flags[|flags| - 1] then 0 else 1)
  }

  /** Setting an unset flag leaves one fewer unset. */
  lemma {:induction false} CountFalseMark(flags: seq<bool>, j: nat)
    requires j < |flags| && !flags[j]
    ensures CountFalse(flags[j := true]) == CountFalse(flags) - 1
  {
    var n := |flags|;
    if j == n - 1 {
      assert flags[j := true][..n - 1] == flags[..n - 1];
    } else {
      assert flags[j := true][..n - 1] == flags[..n - 1][j := true];
      CountFalseMark(flags[..n - 1], j);
    }
  }

  /** The `xs[k]` whose flag is set. */
  function Picked<T>(xs: seq<T>, flags: seq<bool>): multiset<T>
    requires |flags| == |xs|
  {
    if |xs| == 0 then multiset{}
    else
      Picked(xs[..|xs| - 1], flags[..|flags| - 1]) +
      (if flags[|flags| - 1] then multiset{xs[|xs| - 1]} else multiset{})
  }

  /** Setting the flag of `xs[j]` adds exactly that element. */
  lemma {:induction false} PickedMark<T>(xs: seq<T>, flags: seq<bool>, j: nat)
    requires |flags| == |xs| && j < |xs| && !flags[j]
    ensures Picked(xs, flags[j := true]) == Picked(xs, flags) + multiset{xs[j]}
  {
    var n := |xs|;
    var marked := flags[j := true];
    if j == n - 1 {
      assert marked[..n - 1] == flags[..n - 1];
    } else {
      assert marked[..n - 1] == flags[..n - 1][j := true];
      assert marked[n - 1] == flags[n - 1];
      PickedMark(xs[..n - 1], flags[..n - 1], j);
      assert xs[..n - 1][j] == xs[j];
    }
  }

  /** An element whose flag is set is picked. */
  lemma {:induction false} PickedHas<T>(xs: seq<T>, flags: seq<bool>, k: nat)
    requires |flags| == |xs| && k < |xs| && flags[k]
    ensures xs[k] in Picked(xs, flags)
  {
    var n := |xs|;
    if k < n - 1 {
      PickedHas(xs[..n - 1], flags[..n - 1], k);
    }
  }

  /** With no flag set nothing is picked. */
  lemma {:induction false} PickedNone<T>(xs: seq<T>, flags: seq<bool>)
    requires |flags| == |xs| && forall k :: 0 <= k < |flags| ==> !flags[k]
    ensures Picked(xs, flags) == multiset{}
  {
    var n := |xs|;
    if n > 0 {
      PickedNone(xs[..n - 1], flags[..n - 1]);
    }
  }

  /** With every flag set every element is picked. */
  lemma {:induction false} PickedAll<T>(xs: seq<T>, flags: seq<bool>)
    requires |flags| == |xs| && forall k :: 0 <= k < |flags| ==> flags[k]
    ensures Picked(xs, flags) == multiset(xs)
  {
    var n := |xs|;
    if n > 0 {
      PickedAll(xs[..n - 1], flags[..n - 1]);
      assert xs == xs[..n - 1] + [xs[n - 1]];
    }
  }

  /** The first unset flag at or after `i`, or |flags| when there is none. */
  function FirstFalseFrom(flags: seq<bool>, i: nat): (k: nat)
    requires i <= |flags|
    ensures i <= k <= |flags|
    ensures k < |flags| ==> !flags[k]
    ensures forall t :: i <= t < k ==> flags[t]
    decreases |flags| - i
  {
    if i == |flags| || !flags[i] then i else FirstFalseFrom(flags, i + 1)
  }

  /** Steps the cursor of a sort takes from `i`, wrapping from the last index
      to 0, until it stands on an unset flag. */
  function Gap(flags: seq<bool>, i: nat): nat
  {
    if i >= |flags| then 0
    else
      var k := FirstFalseFrom(flags, i);
      if k < |flags| then k - i else (|flags| - i) + FirstFalseFrom(flags, 0)
  }

  /** Moving the cursor past a set flag brings it one step nearer an unset
      one, when one exists. */
  lemma GapStep(flags: seq<bool>, i: nat, j: nat)
    requires i < |flags| && flags[i]
    requires exists t :: 0 <= t < |flags| && !flags[t]
    requires j == if i != |flags| - 1 then i + 1 else 0
    ensures Gap(flags, j) < Gap(flags, i)
  {
    var t :| 0 <= t < |flags| && !flags[t];
    assert FirstFalseFrom(flags, 0) < |flags|;
  }
}
