/**
 * Base yield over quality values (src/main.rs:80-125). The quality table is keyed by the
 * raw codes 33..126, all present from the start with count 0; here it is a 94-cell array
 * indexed by `code - 33`, so its key set cannot change. The report covers the codes
 * 33..83, that is quality values 0..50.
 */
module QScore {
  import opened Reads
  import opened Sampler
  import opened Report

  /** Cells of the table: one per raw code 33..126. */
  const TableSize := 94
  /** Cells the report prints: raw codes 33..83. */
  const ReportedCells := 51

  /** How many times code `c` occurs in `s`. */
  function Occurrences(s: seq<int>, c: int): nat
  {
    if |s| == 0 then 0
    else Occurrences(s[..|s| - 1], c) + (if s[|s| - 1] == c then 1 else 0)
  }

  /** How many codes of `s` lie in `lo..hi-1`. */
  function InRange(s: seq<int>, lo: int, hi: int): nat
  {
    if |s| == 0 then 0
    else InRange(s[..|s| - 1], lo, hi) + (if lo <= s[|s| - 1] < hi then 1 else 0)
  }

  lemma {:induction false} InRangeEmpty(s: seq<int>, lo: int)
    ensures InRange(s, lo, lo) == 0
  {
    if |s| > 0 {
      InRangeEmpty(s[..|s| - 1], lo);
    }
  }

  /** Widening the range by one code adds that code's occurrences. */
  lemma {:induction false} InRangeStep(s: seq<int>, lo: int, k: int)
    requires lo <= k
    ensures InRange(s, lo, k + 1) == InRange(s, lo, k) + Occurrences(s, k)
  {
    if |s| > 0 {
      InRangeStep(s[..|s| - 1], lo, k);
    }
  }

  /** Counting codes in adjacent ranges adds up. */
  lemma {:induction false} InRangeSplit(s: seq<int>, lo: int, mid: int, hi: int)
    requires lo <= mid <= hi
    ensures InRange(s, lo, hi) == InRange(s, lo, mid) + InRange(s, mid, hi)
  {
    if |s| > 0 {
      InRangeSplit(s[..|s| - 1], lo, mid, hi);
    }
  }

  /** When every code is in the table's domain, the whole domain counts every code. */
  lemma {:induction false} InRangeWhole(s: seq<int>)
    requires forall i :: 0 <= i < |s| ==> MinCode <= s[i] <= MaxCode
    ensures InRange(s, MinCode, MaxCode + 1) == |s|
  {
    if |s| > 0 {
      InRangeWhole(s[..|s| - 1]);
    }
  }

  /** Cells that hold the code counts of `s` sum, up to cell `k`, to the codes below `33 + k`. */
  lemma {:induction false} TallyPrefix(s: seq<int>, table: seq<int>, k: nat)
    requires |table| == TableSize && k <= TableSize
    requires forall c :: 0 <= c < TableSize ==> table[c] == Occurrences(s, MinCode + c)
    ensures Sum(table[..k]) == InRange(s, MinCode, MinCode + k)
  {
    if k == 0 {
      InRangeEmpty(s, MinCode);
    } else {
      TallyPrefix(s, table, k - 1);
      SumStep(table, k - 1);
      InRangeStep(s, MinCode, MinCode + k - 1);
    }
  }

  /** The values handed to the histogram: each code minus the Phred offset. */
  function Observations(s: seq<int>): seq<int>
  {
    seq(|s|, i requires 0 <= i < |s| => s[i] - MinCode)
  }

  /** The codes of well-formed reads all lie in the table's domain. */
  lemma {:induction false} AllQualsInDomain(rs: seq<Record>)
    requires forall i :: 0 <= i < |rs| ==> WellFormed(rs[i])
    ensures forall i :: 0 <= i < |AllQuals(rs)| ==> MinCode <= AllQuals(rs)[i] <= MaxCode
  {
    if |rs| > 0 {
      AllQualsInDomain(rs[..|rs| - 1]);
      assert WellFormed(rs[|rs| - 1]);
    }
  }

  /** Counting over two stretches of codes adds up. */
  lemma {:induction false} OccurrencesAppend(a: seq<int>, b: seq<int>, c: int)
    ensures Occurrences(a + b, c) == Occurrences(a, c) + Occurrences(b, c)
  {
    if |b| == 0 {
      assert a + b == a;
    } else {
      var n := |b| - 1;
      assert (a + b)[..|a| + n] == a + b[..n];
      OccurrencesAppend(a, b[..n], c);
    }
  }

  lemma ObservationsAppend(a: seq<int>, b: seq<int>)
    ensures Observations(a + b) == Observations(a) + Observations(b)
  {
  }

  lemma AllQualsStep(rs: seq<Record>, i: nat)
    requires i < |rs|
    ensures AllQuals(rs[..i + 1]) == AllQuals(rs[..i]) + rs[i].qual
  {
    assert rs[..i + 1][..i] == rs[..i];
  }

  /**
   * The inner loop over one read's quality string (src/main.rs:98-105): each code in the
   * domain bumps its cell and, when `hist` is set, every code is handed to the histogram
   * less 33.
   */
  method TallyCodes(cells: array<int>, qual: seq<int>, hist: bool, obs0: seq<int>) returns (obs: seq<int>)
    requires cells.Length == TableSize
    modifies cells
    ensures forall c :: 0 <= c < TableSize ==> cells[c] == old(cells[c]) + Occurrences(qual, MinCode + c)
    ensures obs == obs0 + (if hist then Observations(qual) else [])
  {
    obs := obs0;
    assert forall c :: Occurrences(qual[..0], c) == 0;
    for j := 0 to |qual|
      invariant forall c :: 0 <= c < TableSize ==> cells[c] == old(cells[c]) + Occurrences(qual[..j], MinCode + c)
      invariant obs == obs0 + (if hist then Observations(qual[..j]) else [])
    {
      var q := qual[j];
      assert qual[..j + 1][..j] == qual[..j];
      if hist {
        assert Observations(qual[..j + 1]) == Observations(qual[..j]) + [q - MinCode];
        obs := obs + [q - MinCode];
      }
      if MinCode <= q <= MaxCode {
        cells[q - MinCode] := cells[q - MinCode] + 1;
      }
    }
    assert qual[..|qual|] == qual;
  }

  /**
   * The scan over the sampled reads (src/main.rs:97-105): `bases` grows by each read's
   * length and its quality codes are tallied. With one in-domain code per base, the
   * cells add up to the bases.
   */
  method TallyQualities(sampled: seq<Record>, hist: bool) returns (table: seq<int>, bases: int, obs: seq<int>)
    ensures |table| == TableSize
    ensures forall c :: 0 <= c < TableSize ==> table[c] == Occurrences(AllQuals(sampled), MinCode + c)
    ensures bases == TotalBases(sampled)
    ensures obs == if hist then Observations(AllQuals(sampled)) else []
    ensures (forall i :: 0 <= i < |sampled| ==> WellFormed(sampled[i])) ==> Sum(table) == bases
  {
    var cells := new int[TableSize](_ => 0);
    bases := 0;
    obs := [];
    for i := 0 to |sampled|
      invariant forall c :: 0 <= c < TableSize ==> cells[c] == Occurrences(AllQuals(sampled[..i]), MinCode + c)
      invariant bases == TotalBases(sampled[..i])
      invariant obs == if hist then Observations(AllQuals(sampled[..i])) else []
    {
      var r := sampled[i];
      AllQualsStep(sampled, i);
      TotalBasesStep(sampled, i);
      bases := bases + r.len;
      ghost var before := AllQuals(sampled[..i]);
      obs := TallyCodes(cells, r.qual, hist, obs);
      forall c | 0 <= c < TableSize
        ensures cells[c] == Occurrences(before + r.qual, MinCode + c)
      {
        OccurrencesAppend(before, r.qual, MinCode + c);
      }
      ObservationsAppend(before, r.qual);
    }
    assert sampled[..|sampled|] == sampled;
    table := cells[..];
    if forall i :: 0 <= i < |sampled| ==> WellFormed(sampled[i]) {
      TallyTotal(sampled, table);
    }
  }

  /** With one in-domain code per base, a table of code counts adds up to the bases. */
  lemma TallyTotal(rs: seq<Record>, table: seq<int>)
    requires forall i :: 0 <= i < |rs| ==> WellFormed(rs[i])
    requires |table| == TableSize
    requires forall c :: 0 <= c < TableSize ==> table[c] == Occurrences(AllQuals(rs), MinCode + c)
    ensures Sum(table) == TotalBases(rs)
  {
    var s := AllQuals(rs);
    TallyPrefix(s, table, TableSize);
    assert table[..TableSize] == table;
    AllQualsInDomain(rs);
    InRangeWhole(s);
    AllQualsCount(rs);
  }

  /** What quality mode produces: the histogram's observations, or the table. */
  datatype QOutcome = QHistogram(values: seq<int>) | QTable(rows: seq<Row>)

  /** The quality codes of the reads the sampler keeps. */
  function SampledQuals(records: seq<Record>, skip: nat): seq<int>
    requires skip < U16Limit
  {
    AllQuals(Sampled(records, skip))
  }

  /**
   * Quality mode end to end. Row `j` reports quality value `j`, the number of sampled
   * bases with code `33 + j`, and the sampled bases less those with codes `33..33+j`;
   * when each read has one in-domain code per base that is exactly the number of bases
   * whose quality is above `j`.
   */
  method RunQScore(records: seq<Record>, skip: nat, hist: bool) returns (out: QOutcome)
    requires skip < U16Limit
    ensures hist ==> out == QHistogram(Observations(SampledQuals(records, skip)))
    ensures !hist ==> out.QTable? && |out.rows| == ReportedCells
    ensures !hist ==> forall j :: 0 <= j < |out.rows| ==>
      out.rows[j] == Row(j, Occurrences(SampledQuals(records, skip), MinCode + j),
        TotalBases(Sampled(records, skip)) - InRange(SampledQuals(records, skip), MinCode, MinCode + j + 1))
    ensures !hist ==> forall i, j :: 0 <= i <= j < |out.rows| ==> out.rows[j].above <= out.rows[i].above
    ensures !hist && (forall i :: 0 <= i < |Sampled(records, skip)| ==> WellFormed(Sampled(records, skip)[i])) ==>
      forall j :: 0 <= j < |out.rows| ==>
        out.rows[j].above == InRange(SampledQuals(records, skip), MinCode + j + 1, MaxCode + 1)
  {
    var sampled := Sample(records, skip);
    var table, bases, obs := TallyQualities(sampled, hist);
    if hist {
      return QHistogram(obs);
    }
    var printed := table[..ReportedCells];
    var rows := Tabulate(seq(ReportedCells, j => j), printed, bases);
    ghost var s := AllQuals(sampled);
    forall k | 0 < k <= ReportedCells
      ensures Sum(printed[..k]) == InRange(s, MinCode, MinCode + k)
    {
      assert printed[..k] == table[..k];
      TallyPrefix(s, table, k);
    }
    if forall i :: 0 <= i < |sampled| ==> WellFormed(sampled[i]) {
      AllQualsCount(sampled);
      AllQualsInDomain(sampled);
      InRangeWhole(s);
      forall k | MinCode < k <= MinCode + ReportedCells
        ensures InRange(s, MinCode, MaxCode + 1) == InRange(s, MinCode, k) + InRange(s, k, MaxCode + 1)
      {
        InRangeSplit(s, MinCode, k, MaxCode + 1);
      }
    }
    return QTable(rows);
  }
}
