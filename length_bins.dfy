/**
 * Base yield over read-length bins (src/main.rs:127-192). The sampled lengths are
 * buffered, the run is refused when `--maxlen` does not exceed the longest read by a
 * window, bins are keyed `1, 1 + w, 1 + 2w, ...` below `maxlen`, and every read longer
 * than 1 adds its length to the smallest key at or above it.
 */
module LengthBins {
  import opened Reads
  import opened Arith
  import opened Sampler
  import opened Report

  /** Index of the bin a read of length `l` belongs to: `ceil((l - 1) / w)`. */
  function BinIndex(l: int, w: int): nat
    requires l >= 1 && w >= 1
  {
    (l - 1 + w - 1) / w
  }

  /** Bin `BinIndex(l, w)` is the first whose key `1 + k * w` is at least `l`. */
  lemma BinIndexIsCeiling(l: int, w: int)
    requires l >= 1 && w >= 1
    ensures 1 + BinIndex(l, w) * w >= l
    ensures BinIndex(l, w) == 0 || 1 + (BinIndex(l, w) - 1) * w < l
  {
    var n := l + w - 2;
    var k, r := n / w, n % w;
    assert n == k * w + r && 0 <= r < w;
    assert (k - 1) * w == k * w - w;
  }

  /** A length equal to a key lands on that key; one more lands on the next key. */
  lemma BinOfBoundary(k: nat, w: int)
    requires w >= 1
    ensures BinIndex(1 + k * w, w) == k
    ensures BinIndex(2 + k * w, w) == k + 1
  {
    ModUnique(k * w + w - 1, w, k, w - 1);
    ModUnique(k * w + w, w, k + 1, 0);
  }

  /** The bin keys `1, 1 + w, 1 + 2w, ...` that stay below `maxlen`, and no others. */
  predicate IsBinKeys(keys: seq<int>, w: int, maxlen: int)
  {
    && (forall j :: 0 <= j < |keys| ==> keys[j] == 1 + j * w && keys[j] < maxlen)
    && 1 + |keys| * w >= maxlen
  }

  /** `(1..maxlen).step_by(w)` (src/main.rs:161). */
  method BinKeys(maxlen: int, w: int) returns (keys: seq<int>)
    requires w >= 1
    ensures IsBinKeys(keys, w, maxlen)
    ensures forall i, j :: 0 <= i < j < |keys| ==> keys[i] < keys[j]
  {
    keys := [];
    var k := 1;
    while k < maxlen
      invariant k == 1 + |keys| * w
      invariant forall j :: 0 <= j < |keys| ==> keys[j] == 1 + j * w && keys[j] < maxlen
      invariant forall j :: 0 <= j < |keys| ==> keys[j] < k
      invariant forall i, j :: 0 <= i < j < |keys| ==> keys[i] < keys[j]
      decreases maxlen - k
    {
      assert k + w == 1 + (|keys| + 1) * w;
      keys := keys + [k];
      k := k + w;
    }
  }

  /**
   * `lenhash.range(l..).next()` (src/main.rs:173): the first key, in ascending order,
   * that is at least `l`, or none when every key is below `l`.
   */
  method FindBin(keys: seq<int>, l: int) returns (found: Option<nat>)
    ensures found.None? ==> forall i :: 0 <= i < |keys| ==> keys[i] < l
    ensures found.Some? ==> found.value < |keys| && keys[found.value] >= l
    ensures found.Some? ==> forall i :: 0 <= i < found.value ==> keys[i] < l
  {
    var j := 0;
    while j < |keys| && keys[j] < l
      invariant 0 <= j <= |keys|
      invariant forall i :: 0 <= i < j ==> keys[i] < l
    {
      j := j + 1;
    }
    found := if j < |keys| then Some(j) else None;
  }

  /**
   * Once `l + w <= maxlen` holds, a read of length `l > 1` always has a key at or above
   * it, and the first such key is bin `BinIndex(l, w)`: the lookup's `unwrap` never fails.
   */
  lemma BinLookup(keys: seq<int>, w: int, maxlen: int, l: int)
    requires w >= 1 && IsBinKeys(keys, w, maxlen)
    requires 1 < l && l + w <= maxlen
    ensures BinIndex(l, w) < |keys|
    ensures keys[BinIndex(l, w)] >= l
    ensures forall i :: 0 <= i < BinIndex(l, w) ==> keys[i] < l
  {
    var k := BinIndex(l, w);
    BinIndexIsCeiling(l, w);
    if k > 0 {
      assert 1 + k * w == 1 + (k - 1) * w + w;
    }
    assert 1 + k * w < maxlen;
    if k >= |keys| {
      MulMonotone(|keys|, k, w);
    }
    forall i | 0 <= i < k
      ensures keys[i] < l
    {
      MulMonotone(i, k - 1, w);
    }
  }

  /** Bases credited to bin `k`: the lengths above 1 whose bin index is `k`. */
  function BinSum(lens: seq<int>, w: int, k: int): int
    requires w >= 1
  {
    if |lens| == 0 then 0
    else
      var l := lens[|lens| - 1];
      BinSum(lens[..|lens| - 1], w, k) + (if l > 1 && BinIndex(l, w) == k then l else 0)
  }

  /** Bases credited to the bins before bin `k`. */
  function BelowBin(lens: seq<int>, w: int, k: int): int
    requires w >= 1
  {
    if |lens| == 0 then 0
    else
      var l := lens[|lens| - 1];
      BelowBin(lens[..|lens| - 1], w, k) + (if l > 1 && BinIndex(l, w) < k then l else 0)
  }

  /** Bases of the reads that are either discarded or credited to bin `k` or later. */
  function AboveBin(lens: seq<int>, w: int, k: int): int
    requires w >= 1
  {
    if |lens| == 0 then 0
    else
      var l := lens[|lens| - 1];
      AboveBin(lens[..|lens| - 1], w, k) + (if l <= 1 || BinIndex(l, w) >= k then l else 0)
  }

  /** Bases of the reads that are too short to be binned (length at most 1). */
  function Discarded(lens: seq<int>): int
  {
    if |lens| == 0 then 0
    else
      var l := lens[|lens| - 1];
      Discarded(lens[..|lens| - 1]) + (if l <= 1 then l else 0)
  }

  lemma {:induction false} BelowBinStep(lens: seq<int>, w: int, k: int)
    requires w >= 1
    ensures BelowBin(lens, w, k + 1) == BelowBin(lens, w, k) + BinSum(lens, w, k)
  {
    if |lens| > 0 {
      BelowBinStep(lens[..|lens| - 1], w, k);
    }
  }

  /** Every read's bases are either below bin `k` or not. */
  lemma {:induction false} BelowPlusAbove(lens: seq<int>, w: int, k: int)
    requires w >= 1
    ensures Sum(lens) == BelowBin(lens, w, k) + AboveBin(lens, w, k)
  {
    if |lens| > 0 {
      BelowPlusAbove(lens[..|lens| - 1], w, k);
    }
  }

  /** Cells holding the bin sums add up, before cell `k`, to the bases below bin `k`. */
  lemma {:induction false} BinTotalsPrefix(totals: seq<int>, lens: seq<int>, w: int, k: nat)
    requires w >= 1 && k <= |totals|
    requires forall j :: 0 <= j < |totals| ==> totals[j] == BinSum(lens, w, j)
    ensures Sum(totals[..k]) == BelowBin(lens, w, k)
  {
    if k == 0 {
      BelowNone(lens, w);
    } else {
      BinTotalsPrefix(totals, lens, w, k - 1);
      SumStep(totals, k - 1);
      BelowBinStep(lens, w, k - 1);
    }
  }

  lemma {:induction false} BelowNone(lens: seq<int>, w: int)
    requires w >= 1
    ensures BelowBin(lens, w, 0) == 0
  {
    if |lens| > 0 {
      BelowNone(lens[..|lens| - 1], w);
    }
  }

  /** Counting from a later bin never leaves more bases above it. */
  lemma {:induction false} AboveBinAntitone(lens: seq<int>, w: int, i: int, j: int)
    requires w >= 1 && i <= j
    ensures AboveBin(lens, w, j) <= AboveBin(lens, w, i)
  {
    if |lens| > 0 {
      AboveBinAntitone(lens[..|lens| - 1], w, i, j);
    }
  }

  /** Rows that report the bases above each successive bin never report more further down. */
  lemma AboveNonIncreasing(rows: seq<Row>, lens: seq<int>, w: int)
    requires w >= 1
    requires forall j :: 0 <= j < |rows| ==> rows[j].above == AboveBin(lens, w, j + 1)
    ensures forall i, j :: 0 <= i <= j < |rows| ==> rows[j].above <= rows[i].above
  {
    forall i, j | 0 <= i <= j < |rows|
      ensures rows[j].above <= rows[i].above
    {
      AboveBinAntitone(lens, w, i + 1, j + 1);
    }
  }

  /** Past the last bin, only the discarded reads remain. */
  lemma {:induction false} AboveAllBins(lens: seq<int>, w: int, n: int)
    requires w >= 1
    requires forall i :: 0 <= i < |lens| && lens[i] > 1 ==> BinIndex(lens[i], w) < n
    ensures AboveBin(lens, w, n) == Discarded(lens)
  {
    if |lens| > 0 {
      AboveAllBins(lens[..|lens| - 1], w, n);
    }
  }

  /**
   * All bins together hold every base except those of the discarded reads, when every
   * binned read falls in one of the `n` bins.
   */
  lemma BinsConserve(totals: seq<int>, lens: seq<int>, w: int)
    requires w >= 1
    requires forall j :: 0 <= j < |totals| ==> totals[j] == BinSum(lens, w, j)
    requires forall i :: 0 <= i < |lens| && lens[i] > 1 ==> BinIndex(lens[i], w) < |totals|
    ensures Sum(totals) == Sum(lens) - Discarded(lens)
  {
    BinTotalsPrefix(totals, lens, w, |totals|);
    assert totals[..|totals|] == totals;
    BelowPlusAbove(lens, w, |totals|);
    AboveAllBins(lens, w, |totals|);
  }

  /**
   * The placement loop (src/main.rs:167-175): every bin starts at 0, a length of at most
   * 1 is skipped, and any other length `l` is added, as `l` bases, to the first key at or
   * above it. Needs the validation's guarantee that every length fits below `maxlen - w`.
   */
  method PlaceLengths(keys: seq<int>, lens: seq<int>, w: int, ghost maxlen: int) returns (totals: seq<int>)
    requires w >= 1 && IsBinKeys(keys, w, maxlen)
    requires forall i :: 0 <= i < |lens| ==> lens[i] + w <= maxlen
    ensures |totals| == |keys|
    ensures forall k :: 0 <= k < |keys| ==> totals[k] == BinSum(lens, w, k)
  {
    var bins := new int[|keys|](_ => 0);
    for i := 0 to |lens|
      invariant forall k :: 0 <= k < bins.Length ==> bins[k] == BinSum(lens[..i], w, k)
    {
      var l := lens[i];
      assert lens[..i + 1][..i] == lens[..i];
      if l > 1 {
        var found := FindBin(keys, l);
        BinLookup(keys, w, maxlen, l);
        var k := found.value;
        bins[k] := bins[k] + l;
      }
    }
    assert lens[..|lens|] == lens;
    totals := bins[..];
  }

  /** `lens.iter().max()` (src/main.rs:142): the longest length, or none for no reads. */
  method MaxLength(lens: seq<int>) returns (m: Option<int>)
    ensures m.None? <==> |lens| == 0
    ensures m.Some? ==> m.value in lens && forall i :: 0 <= i < |lens| ==> lens[i] <= m.value
  {
    m := None;
    for i := 0 to |lens|
      invariant m.None? <==> i == 0
      invariant m.Some? ==> m.value in lens[..i] && forall j :: 0 <= j < i ==> lens[j] <= m.value
    {
      if m.None? || lens[i] >= m.value {
        m := Some(lens[i]);
      }
    }
    assert lens[..|lens|] == lens;
  }

  /**
   * `lenhash.iter().max_by_key(|p| p.1)` (src/main.rs:178-179): a bin with the largest
   * total, and of several such the last, as Rust's `max_by_key` returns the last maximum.
   */
  method MaxBin(totals: seq<int>) returns (k: nat)
    requires |totals| > 0
    ensures k < |totals|
    ensures forall j :: 0 <= j < |totals| ==> totals[j] <= totals[k]
    ensures forall j :: k < j < |totals| ==> totals[j] < totals[k]
  {
    k := 0;
    for i := 1 to |totals|
      invariant k < i
      invariant forall j :: 0 <= j < i ==> totals[j] <= totals[k]
      invariant forall j :: k < j < i ==> totals[j] < totals[k]
    {
      if totals[i] >= totals[k] {
        k := i;
      }
    }
  }

  /** Why length mode stops without a table. */
  datatype LenError =
    | EmptyRun                                  // no read was sampled: `max().unwrap()` fails
    | MaxlenTooSmall(maxRead: int, window: int) // exit status 1: `--maxlen` must exceed maxRead + window

  /** The three header lines and the table. */
  datatype LenReport = LenReport(maxBin: int, totalBases: int, maxBinBases: int, rows: seq<Row>)

  /** What length mode produces: the histogram's observations, or the report. */
  datatype LenOutcome = LenHistogram(values: seq<int>) | LenTable(report: LenReport)

  /** The lengths of the reads the sampler keeps. */
  function SampledLengths(records: seq<Record>, skip: nat): seq<int>
    requires skip < U16Limit
  {
    Lengths(Sampled(records, skip))
  }

  /**
   * The rows of the length report for `lens`: one per key `1 + j * w` below `maxlen`,
   * with the bases credited to that bin and the bases of the reads either discarded or
   * in a later bin, so that the last row is left with the discarded reads.
   */
  predicate BinRows(rows: seq<Row>, lens: seq<int>, maxlen: int, w: int)
    requires w >= 1
  {
    && |rows| > 0 && 1 + |rows| * w >= maxlen
    && (forall j :: 0 <= j < |rows| ==>
          rows[j] == Row(1 + j * w, BinSum(lens, w, j), AboveBin(lens, w, j + 1)))
    && (forall j :: 0 <= j < |rows| ==> rows[j].key < maxlen)
    && rows[|rows| - 1].above == Discarded(lens)
    && (forall i, j :: 0 <= i <= j < |rows| ==> rows[j].above <= rows[i].above)
  }

  /** `maxBin` is a row's key holding the largest total, and the last such key. */
  predicate IsMaxBin(rows: seq<Row>, maxBin: int, maxBinBases: int)
  {
    && (exists j :: 0 <= j < |rows| && rows[j].key == maxBin && rows[j].at == maxBinBases)
    && (forall j :: 0 <= j < |rows| ==> rows[j].at <= maxBinBases)
    && (forall j :: 0 <= j < |rows| && rows[j].at == maxBinBases ==> rows[j].key <= maxBin)
  }

  /** What the length report says about `lens`: its rows, and the maximum bin among them. */
  predicate ReportsBins(rep: LenReport, lens: seq<int>, maxlen: int, w: int)
    requires w >= 1
  {
    BinRows(rep.rows, lens, maxlen, w) && IsMaxBin(rep.rows, rep.maxBin, rep.maxBinBases)
  }

  /** The cascade over the bin totals reports, per bin, the bases not yet accounted for. */
  lemma BinRowsHold(keys: seq<int>, totals: seq<int>, rows: seq<Row>, lens: seq<int>, maxlen: int, w: int)
    requires 2 <= maxlen && w >= 1 && IsBinKeys(keys, w, maxlen)
    requires forall i :: 0 <= i < |lens| ==> lens[i] + w <= maxlen
    requires |totals| == |keys| && forall k :: 0 <= k < |keys| ==> totals[k] == BinSum(lens, w, k)
    requires |rows| == |totals|
    requires forall j :: 0 <= j < |rows| ==> rows[j] == Row(keys[j], totals[j], Sum(lens) - Sum(totals[..j + 1]))
    ensures BinRows(rows, lens, maxlen, w)
  {
    forall j | 0 <= j < |rows|
      ensures rows[j].above == AboveBin(lens, w, j + 1)
    {
      BinTotalsPrefix(totals, lens, w, j + 1);
      BelowPlusAbove(lens, w, j + 1);
    }
    forall i | 0 <= i < |lens| && lens[i] > 1
      ensures BinIndex(lens[i], w) < |keys|
    {
      BinLookup(keys, w, maxlen, lens[i]);
    }
    AboveAllBins(lens, w, |keys|);
    AboveNonIncreasing(rows, lens, w);
    assert keys[0] == 1;
  }

  /**
   * The last of the largest bin totals, found over the totals, names the last key with the
   * largest count among the rows: keys only grow down the table.
   */
  lemma MaxBinHolds(keys: seq<int>, totals: seq<int>, rows: seq<Row>, m: nat)
    requires |keys| == |totals| == |rows| && m < |totals|
    requires forall i, j :: 0 <= i < j < |keys| ==> keys[i] < keys[j]
    requires forall j :: 0 <= j < |totals| ==> totals[j] <= totals[m]
    requires forall j :: m < j < |totals| ==> totals[j] < totals[m]
    requires forall j :: 0 <= j < |rows| ==> rows[j].key == keys[j] && rows[j].at == totals[j]
    ensures IsMaxBin(rows, keys[m], totals[m])
  {
    assert rows[m].key == keys[m] && rows[m].at == totals[m];
    forall j | 0 <= j < |rows| && rows[j].at == totals[m]
      ensures rows[j].key <= keys[m]
    {
      if j < m {
        assert keys[j] < keys[m];
      }
    }
  }

  /**
   * Binning and the report for validated lengths (src/main.rs:160-191).
   */
  method LengthTable(lens: seq<int>, bases: int, maxlen: int, w: int) returns (rep: LenReport)
    requires 2 <= maxlen && w >= 1
    requires bases == Sum(lens)
    requires forall i :: 0 <= i < |lens| ==> lens[i] + w <= maxlen
    ensures rep.totalBases == bases
    ensures ReportsBins(rep, lens, maxlen, w)
  {
    var keys := BinKeys(maxlen, w);
    var totals := PlaceLengths(keys, lens, w, maxlen);
    var rows := Tabulate(keys, totals, bases);
    BinRowsHold(keys, totals, rows, lens, maxlen, w);
    var m := MaxBin(totals);
    MaxBinHolds(keys, totals, rows, m);
    rep := LenReport(keys[m], bases, totals[m], rows);
  }

  /**
   * Length mode end to end: sample, buffer, validate, then either hand the raw lengths
   * to the histogram or bin them. No reads is `EmptyRun`; a longest read `m` with
   * `maxlen < m + window` is `MaxlenTooSmall`, checked before the histogram branch.
   */
  method RunLength(records: seq<Record>, skip: nat, maxlen: int, window: int, hist: bool)
    returns (out: Result<LenOutcome, LenError>)
    requires skip < U16Limit
    requires 100 <= maxlen <= 500000 && 10 <= window <= 1000
    ensures out == Err(EmptyRun) <==> |SampledLengths(records, skip)| == 0
    ensures out.Ok? <==> (|SampledLengths(records, skip)| > 0
      && forall i :: 0 <= i < |SampledLengths(records, skip)| ==> SampledLengths(records, skip)[i] + window <= maxlen)
    ensures out.Err? && out.error.MaxlenTooSmall? ==>
      && out.error.window == window
      && out.error.maxRead in SampledLengths(records, skip)
      && (forall i :: 0 <= i < |SampledLengths(records, skip)| ==> SampledLengths(records, skip)[i] <= out.error.maxRead)
      && maxlen < out.error.maxRead + window
    ensures out.Ok? && hist ==> out.value == LenHistogram(SampledLengths(records, skip))
    ensures out.Ok? && !hist ==> out.value.LenTable?
    ensures out.Ok? && !hist ==> out.value.report.totalBases == TotalBases(Sampled(records, skip))
    ensures out.Ok? && !hist ==> ReportsBins(out.value.report, SampledLengths(records, skip), maxlen, window)
  {
    var sampled := Sample(records, skip);
    var lens, bases := CollectLengths(sampled);
    var longest := MaxLength(lens);
    if longest.None? {
      return Err(EmptyRun);
    }
    var m := longest.value;
    if maxlen < m + window {
      return Err(MaxlenTooSmall(m, window));
    }
    if hist {
      return Ok(LenHistogram(lens));
    }
    var rep := LengthTable(lens, bases, maxlen, window);
    return Ok(LenTable(rep));
  }
}
