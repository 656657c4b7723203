/**
 * Nx values (src/main.rs:195-221). Every read is used, with no sampling. The lengths are
 * sorted ascending in place, their running sums are taken, and for `i = 0..9` the
 * reported length is the first whose running sum exceeds `i / 10` of all bases, under
 * the label `100 - 10 * i`.
 */
module Nx {
  import opened Reads
  import opened Arith

  predicate Ascending(s: seq<int>)
  {
    forall i, j :: 0 <= i < j < |s| ==> s[i] <= s[j]
  }

  /**
   * `lens.sort_unstable()` (src/main.rs:205): afterwards the buffer is ascending and a
   * permutation of what it held. Any in-place sort meets this; insertion sort is used.
   */
  method SortAscending(a: array<int>)
    modifies a
    ensures Ascending(a[..])
    ensures multiset(a[..]) == multiset(old(a[..]))
  {
    for i := 0 to a.Length
      invariant Ascending(a[..i])
      invariant multiset(a[..]) == multiset(old(a[..]))
    {
      InsertAt(a, i);
    }
    assert a[..a.Length] == a[..];
  }

  /** Moves `a[i]` left past every larger element, extending the sorted prefix by one. */
  method InsertAt(a: array<int>, i: int)
    requires 0 <= i < a.Length
    requires Ascending(a[..i])
    modifies a
    ensures Ascending(a[..i + 1])
    ensures a[i + 1..] == old(a[i + 1..])
    ensures multiset(a[..]) == multiset(old(a[..]))
  {
    assert forall p, q :: 0 <= p < q < i ==> a[..i][p] <= a[..i][q];
    var j := i;
    while j > 0 && a[j - 1] > a[j]
      invariant 0 <= j <= i
      invariant multiset(a[..]) == multiset(old(a[..]))
      invariant a[i + 1..] == old(a[i + 1..])
      invariant forall p, q :: 0 <= p < q <= i && q != j ==> a[p] <= a[q]
      invariant forall q :: j < q <= i ==> a[j] < a[q]
    {
      SwapAdjacent(a, j - 1);
      j := j - 1;
    }
    assert forall p, q :: 0 <= p < q <= i ==> a[p] <= a[q];
  }

  /** Exchanges `a[k]` and `a[k + 1]`. */
  method SwapAdjacent(a: array<int>, k: int)
    requires 0 <= k < a.Length - 1
    modifies a
    ensures a[k] == old(a[k + 1]) && a[k + 1] == old(a[k])
    ensures forall m :: 0 <= m < a.Length && m != k && m != k + 1 ==> a[m] == old(a[m])
    ensures multiset(a[..]) == multiset(old(a[..]))
  {
    a[k], a[k + 1] := a[k + 1], a[k];
  }

  lemma SumCons(x: int, s: seq<int>)
    ensures Sum([x] + s) == x + Sum(s)
  {
    SumAppend([x], s);
    assert [x][..0] == [];
  }

  /**
   * `scan(acc, |sum, i| { *sum += i; Some(*sum) })` (src/main.rs:206-211): entry `j` is
   * `acc` plus the sum of the first `j + 1` elements.
   */
  function PrefixSums(acc: int, s: seq<int>): (r: seq<int>)
    ensures |r| == |s|
    ensures forall j :: 0 <= j < |s| ==> r[j] == acc + Sum(s[..j + 1])
    decreases |s|
  {
    if |s| == 0 then []
    else
      var rest := PrefixSums(acc + s[0], s[1..]);
      PrefixStep(s);
      [acc + s[0]] + rest
  }

  lemma PrefixStep(s: seq<int>)
    requires |s| > 0
    ensures forall j :: 1 <= j < |s| ==> Sum(s[..j + 1]) == s[0] + Sum(s[1..][..j])
  {
    forall j | 1 <= j < |s|
      ensures Sum(s[..j + 1]) == s[0] + Sum(s[1..][..j])
    {
      assert s[..j + 1] == [s[0]] + s[1..][..j];
      SumCons(s[0], s[1..][..j]);
    }
  }

  /**
   * `cumsum.iter().position(|&x| x > target)` (src/main.rs:218): the first index whose
   * entry exceeds `target`, or none when no entry does.
   */
  function FirstAbove(cs: seq<int>, target: int): (r: Option<nat>)
    ensures r.None? <==> forall j :: 0 <= j < |cs| ==> cs[j] <= target
    ensures r.Some? ==> r.value < |cs| && cs[r.value] > target
    ensures r.Some? ==> forall j :: 0 <= j < r.value ==> cs[j] <= target
  {
    if |cs| == 0 then None
    else if cs[0] > target then Some(0)
    else
      match FirstAbove(cs[1..], target)
      case None => None
      case Some(j) => Some(j + 1)
  }

  /** The threshold for step `i`: `i / 10` of all bases, rounded down. */
  function Target(total: int, i: int): int
  {
    total * i / 10
  }

  /** One printed row: the label and the length reported under it. */
  datatype NxRow = NxRow(percent: int, readLen: int)

  /** `position(..).unwrap()` finds no running sum above the threshold. */
  datatype NxError = NoSumAboveTarget

  /** The length reported for step `i`, when some running sum exceeds the threshold. */
  function NxLength(sorted: seq<int>, i: int): Option<int>
  {
    match FirstAbove(PrefixSums(0, sorted), Target(Sum(sorted), i))
    case None => None
    case Some(j) => Some(sorted[j])
  }

  /** With some bases present, every threshold for `i = 0..9` is exceeded by the last running sum. */
  lemma {:induction false} TargetReached(sorted: seq<int>, i: int)
    requires Sum(sorted) > 0 && 0 <= i <= 9
    ensures FirstAbove(PrefixSums(0, sorted), Target(Sum(sorted), i)).Some?
  {
    var total := Sum(sorted);
    var cs := PrefixSums(0, sorted);
    assert sorted[..|sorted|] == sorted;
    assert cs[|sorted| - 1] == total;
    assert total * i <= total * 9;
    assert Target(total, i) < total;
  }

  /** With no bases, the very first threshold, 0, is never exceeded. */
  lemma {:induction false} NoBasesNoRow(sorted: seq<int>)
    requires forall j :: 0 <= j < |sorted| ==> sorted[j] >= 0
    requires Sum(sorted) == 0
    ensures FirstAbove(PrefixSums(0, sorted), Target(Sum(sorted), 0)).None?
  {
    var cs := PrefixSums(0, sorted);
    forall j | 0 <= j < |sorted|
      ensures cs[j] <= 0
    {
      SumPrefixMonotone(sorted, j + 1, |sorted|);
      assert sorted[..|sorted|] == sorted;
    }
  }

  lemma SumNonNegative(s: seq<int>)
    requires forall j :: 0 <= j < |s| ==> s[j] >= 0
    ensures Sum(s) >= 0
  {
    SumPrefixMonotone(s, 0, |s|);
    assert s[..0] == [] && s[..|s|] == s;
  }

  lemma TargetMonotone(total: int, i: int, k: int)
    requires total >= 0 && i <= k
    ensures Target(total, i) <= Target(total, k)
  {
    if total > 0 {
      MulMonotone(i, k, total);
    }
  }

  /** Over ascending lengths, a higher threshold never reports a shorter read. */
  lemma NxMonotone(sorted: seq<int>, i: int, k: int)
    requires Ascending(sorted)
    requires forall j :: 0 <= j < |sorted| ==> sorted[j] >= 0
    requires 0 <= i <= k
    requires NxLength(sorted, i).Some? && NxLength(sorted, k).Some?
    ensures NxLength(sorted, i).value <= NxLength(sorted, k).value
  {
    var total := Sum(sorted);
    var cs := PrefixSums(0, sorted);
    SumNonNegative(sorted);
    TargetMonotone(total, i, k);
    var a, b := FirstAbove(cs, Target(total, i)), FirstAbove(cs, Target(total, k));
    assert a.value <= b.value;
  }

  /**
   * The reporting loop (src/main.rs:214-220) over the sorted lengths: row `i` carries
   * label `100 - 10 * i` and the length the first running sum above `i / 10` of the
   * bases stops at. The `unwrap` fails, and no row is printed, exactly when there are
   * no bases.
   */
  method NxRows(sorted: seq<int>) returns (out: Result<seq<NxRow>, NxError>)
    requires forall j :: 0 <= j < |sorted| ==> sorted[j] >= 0
    ensures out.Err? <==> Sum(sorted) == 0
    ensures out.Ok? ==> |out.value| == 10
    ensures out.Ok? ==> forall i :: 0 <= i < 10 ==>
      NxLength(sorted, i).Some? && out.value[i] == NxRow(100 - 10 * i, NxLength(sorted, i).value)
    ensures out.Ok? && Ascending(sorted) ==>
      forall i, k :: 0 <= i <= k < 10 ==> out.value[i].readLen <= out.value[k].readLen
  {
    var cumsum := PrefixSums(0, sorted);
    var total := Sum(sorted);
    SumNonNegative(sorted);
    if total > 0 {
      forall i | 0 <= i < 10
        ensures FirstAbove(cumsum, Target(total, i)).Some?
      {
        TargetReached(sorted, i);
      }
    } else {
      NoBasesNoRow(sorted);
    }
    var rows := [];
    for i := 0 to 10
      invariant |rows| == i
      invariant forall k :: 0 <= k < i ==> NxLength(sorted, k).Some? && rows[k] == NxRow(100 - 10 * k, NxLength(sorted, k).value)
    {
      var nxindex := FirstAbove(cumsum, Target(total, i));
      if nxindex.None? {
        return Err(NoSumAboveTarget);
      }
      rows := rows + [NxRow(100 - 10 * i, sorted[nxindex.value])];
    }
    assert NxLength(sorted, 0).Some?;
    out := Ok(rows);
    if Ascending(sorted) {
      forall i, k | 0 <= i <= k < 10
        ensures rows[i].readLen <= rows[k].readLen
      {
        NxMonotone(sorted, i, k);
      }
    }
  }

  /**
   * Nx mode end to end: every read's length is buffered, sorted ascending in place and
   * reported on. `sorted` is the buffer after the sort: an ascending permutation of the
   * lengths, with the same total.
   */
  method RunNx(records: seq<Record>) returns (sorted: seq<int>, out: Result<seq<NxRow>, NxError>)
    ensures multiset(sorted) == multiset(Lengths(records))
    ensures Ascending(sorted)
    ensures Sum(sorted) == TotalBases(records)
    ensures out.Err? <==> TotalBases(records) == 0
    ensures out.Ok? ==> |out.value| == 10
    ensures out.Ok? ==> forall i :: 0 <= i < 10 ==>
      NxLength(sorted, i).Some? && out.value[i] == NxRow(100 - 10 * i, NxLength(sorted, i).value)
    ensures out.Ok? ==> forall i, k :: 0 <= i <= k < 10 ==> out.value[i].readLen <= out.value[k].readLen
  {
    var lens, bases := CollectLengths(records);
    var a := new int[|lens|](j requires 0 <= j < |lens| => lens[j]);
    assert a[..] == lens;
    SortAscending(a);
    sorted := a[..];
    SumOfPermutation(sorted, lens);
    forall j | 0 <= j < |sorted|
      ensures sorted[j] >= 0
    {
      assert sorted[j] in multiset(lens);
    }
    out := NxRows(sorted);
  }
}
