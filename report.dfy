/**
 * The tabular report shared by quality and length modes (src/main.rs:115-124, 183-191):
 * a running "bases above" counter starts at the total and each row first subtracts its
 * own count, then reports the counter. Percentages are not modelled.
 */
module Report {
  import opened Reads

  /** One printed row: the key, the bases at that key, and the bases above it. */
  datatype Row = Row(key: int, at: int, above: int)

  /**
   * Walks the cells in ascending key order with `cumbases -= value`. Row `j` reports
   * the total minus every count up to and including cell `j`; with non-negative counts
   * the "above" column never increases down the table.
   */
  method Tabulate(keys: seq<int>, counts: seq<int>, bases: int) returns (rows: seq<Row>)
    requires |keys| == |counts|
    ensures |rows| == |counts|
    ensures forall j :: 0 <= j < |rows| ==>
      rows[j] == Row(keys[j], counts[j], bases - Sum(counts[..j + 1]))
    ensures (forall j :: 0 <= j < |counts| ==> counts[j] >= 0) ==>
      forall i, j :: 0 <= i <= j < |rows| ==> rows[j].above <= rows[i].above
  {
    var cumbases := bases;
    rows := [];
    for j := 0 to |counts|
      invariant |rows| == j
      invariant cumbases == bases - Sum(counts[..j])
      invariant forall k :: 0 <= k < j ==> rows[k] == Row(keys[k], counts[k], bases - Sum(counts[..k + 1]))
    {
      SumStep(counts, j);
      cumbases := cumbases - counts[j];
      rows := rows + [Row(keys[j], counts[j], cumbases)];
    }
    if forall j :: 0 <= j < |counts| ==> counts[j] >= 0 {
      forall i, j | 0 <= i <= j < |rows|
        ensures rows[j].above <= rows[i].above
      {
        SumPrefixMonotone(counts, i + 1, j + 1);
      }
    }
  }
}
