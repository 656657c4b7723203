/** Sequencing reads as the record source delivers them, and the sums taken over them. */
module Reads {

  datatype Option<T> = None | Some(value: T)

  datatype Result<T, E> = Ok(value: T) | Err(error: E)

  /** One read: its length in bases and its quality string as raw byte codes (Phred+33). */
  datatype Record = Record(len: nat, qual: seq<int>)

  /** The raw quality codes the quality table is keyed by: '!' (33) to '~' (126). */
  const MinCode := 33
  const MaxCode := 126

  /** A read whose quality string has one code per base, each inside the table's domain. */
  predicate WellFormed(r: Record)
  {
    r.len == |r.qual| && forall i :: 0 <= i < |r.qual| ==> MinCode <= r.qual[i] <= MaxCode
  }

  /** Sum of a sequence, taken from the front so that extending by one element adds it. */
  function Sum(s: seq<int>): int
  {
    if |s| == 0 then 0 else Sum(s[..|s| - 1]) + s[|s| - 1]
  }

  lemma SumStep(s: seq<int>, k: nat)
    requires k < |s|
    ensures Sum(s[..k + 1]) == Sum(s[..k]) + s[k]
  {
    assert s[..k + 1][..k] == s[..k];
  }

  lemma {:induction false} SumAppend(a: seq<int>, b: seq<int>)
    ensures Sum(a + b) == Sum(a) + Sum(b)
  {
    if |b| == 0 {
      assert a + b == a;
    } else {
      assert (a + b)[..|a + b| - 1] == a + b[..|b| - 1];
      SumAppend(a, b[..|b| - 1]);
    }
  }

  /** Over non-negative entries, a longer prefix never sums to less. */
  lemma {:induction false} SumPrefixMonotone(s: seq<int>, i: nat, j: nat)
    requires i <= j <= |s|
    requires forall k :: 0 <= k < |s| ==> s[k] >= 0
    ensures Sum(s[..i]) <= Sum(s[..j])
  {
    if i < j {
      SumPrefixMonotone(s, i, j - 1);
      SumStep(s, j - 1);
    }
  }

  /** Reordering a sequence does not change its sum. */
  lemma {:induction false} SumOfPermutation(a: seq<int>, b: seq<int>)
    requires multiset(a) == multiset(b)
    ensures Sum(a) == Sum(b)
    decreases |a|
  {
    if |a| == 0 {
      assert |multiset(b)| == 0;
    } else {
      var x := a[|a| - 1];
      var a' := a[..|a| - 1];
      assert a == a' + [x];
      assert x in multiset(b);
      var k :| 0 <= k < |b| && b[k] == x;
      var b' := RemoveAt(b, k);
      assert multiset(a') == multiset(a) - multiset{x};
      SumOfPermutation(a', b');
    }
  }

  /** `b` without its element at `k`: one fewer of that element, and that much less sum. */
  lemma RemoveAt(b: seq<int>, k: nat) returns (b': seq<int>)
    requires k < |b|
    ensures multiset(b') == multiset(b) - multiset{b[k]}
    ensures Sum(b') == Sum(b) - b[k]
  {
    b' := b[..k] + b[k + 1..];
    assert b == b[..k] + [b[k]] + b[k + 1..];
    SumAppend(b[..k] + [b[k]], b[k + 1..]);
    SumAppend(b[..k], [b[k]]);
    SumAppend(b[..k], b[k + 1..]);
  }

  /** The lengths of the reads, in order. */
  function Lengths(rs: seq<Record>): seq<int>
  {
    seq(|rs|, i requires 0 <= i < |rs| => rs[i].len)
  }

  /** Bases in all the reads: the sum of their lengths. */
  function TotalBases(rs: seq<Record>): int
  {
    Sum(Lengths(rs))
  }

  /** One more read adds its length to the bases. */
  lemma TotalBasesStep(rs: seq<Record>, i: nat)
    requires i < |rs|
    ensures TotalBases(rs[..i + 1]) == TotalBases(rs[..i]) + rs[i].len
  {
    var ls := Lengths(rs[..i]);
    assert Lengths(rs[..i + 1]) == ls + [rs[i].len];
    assert (ls + [rs[i].len])[..|ls|] == ls;
  }

  /** Every quality code of every read, read after read. */
  function AllQuals(rs: seq<Record>): seq<int>
  {
    if |rs| == 0 then [] else AllQuals(rs[..|rs| - 1]) + rs[|rs| - 1].qual
  }

  /** When each read has one quality code per base, there are as many codes as bases. */
  lemma {:induction false} AllQualsCount(rs: seq<Record>)
    requires forall i :: 0 <= i < |rs| ==> rs[i].len == |rs[i].qual|
    ensures |AllQuals(rs)| == TotalBases(rs)
  {
    if |rs| > 0 {
      var n := |rs| - 1;
      AllQualsCount(rs[..n]);
      assert Lengths(rs)[..n] == Lengths(rs[..n]);
    }
  }

  /**
   * The buffering loop of length and Nx modes (src/main.rs:131-140, 199-203): every read
   * handed to it adds its length to `bases` and pushes it onto `lens`.
   */
  method CollectLengths(rs: seq<Record>) returns (lens: seq<int>, bases: int)
    ensures lens == Lengths(rs)
    ensures bases == TotalBases(rs)
  {
    lens, bases := [], 0;
    for i := 0 to |rs|
      invariant lens == Lengths(rs[..i])
      invariant bases == Sum(lens)
    {
      assert lens + [rs[i].len] == Lengths(rs[..i + 1]);
      assert (lens + [rs[i].len])[..|lens|] == lens;
      bases := bases + rs[i].len;
      lens := lens + [rs[i].len];
    }
    assert rs[..|rs|] == rs;
  }
}
