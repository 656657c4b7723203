/**
 * Stride sampling of the record stream (src/main.rs:90-96 and 129-136): a `u16` counter
 * is bumped once per incoming read, and a read is kept when the counter equals `skip`,
 * after which the counter goes back to 0.
 */
module Sampler {
  import opened Reads
  import opened Arith

  /** One past the largest `u16`: the counter's `+= 1` wraps here in a release build. */
  const U16Limit := 0x1_0000

  /**
   * How many reads pass between two kept ones: `skip` itself, or, when `skip` is 0,
   * the full cycle of the wrapping counter (it only equals 0 again after wrapping).
   */
  function Period(skip: nat): (p: nat)
    requires skip < U16Limit
    ensures p >= 1
    ensures skip >= 1 ==> p == skip
  {
    if skip == 0 then U16Limit else skip
  }

  /** Whether the read at 1-based position `i` is kept. */
  predicate Keep(i: nat, skip: nat)
    requires skip < U16Limit
  {
    i % Period(skip) == 0
  }

  /** The reads the sampler keeps, in their original order. */
  function Sampled(rs: seq<Record>, skip: nat): seq<Record>
    requires skip < U16Limit
  {
    if |rs| == 0 then []
    else Sampled(rs[..|rs| - 1], skip) + (if Keep(|rs|, skip) then [rs[|rs| - 1]] else [])
  }

  /**
   * The counter-driven loop. The counter is kept as the source keeps it; the
   * invariant ties it to the number of reads seen so far.
   */
  method Sample(rs: seq<Record>, skip: nat) returns (kept: seq<Record>)
    requires skip < U16Limit
    ensures kept == Sampled(rs, skip)
  {
    var step := 0;
    kept := [];
    for i := 0 to |rs|
      invariant step == i % Period(skip)
      invariant kept == Sampled(rs[..i], skip)
    {
      assert rs[..i + 1][..i] == rs[..i];
      CounterStep(i, step, skip);
      step := (step + 1) % U16Limit;
      if step == skip {
        step := 0;
        kept := kept + [rs[i]];
      }
    }
    assert rs[..|rs|] == rs;
  }

  /** One bump of the counter, with the wrap and the reset, keeps it equal to `i % Period(skip)`. */
  lemma CounterStep(i: nat, step: nat, skip: nat)
    requires skip < U16Limit && step == i % Period(skip)
    ensures var next := (step + 1) % U16Limit;
      && (next == skip <==> Keep(i + 1, skip))
      && (if next == skip then 0 else next) == (i + 1) % Period(skip)
  {
    var p := Period(skip);
    assert i == (i / p) * p + step;
    if step + 1 == p {
      ModUnique(i + 1, p, i / p + 1, 0);
    } else {
      ModUnique(i + 1, p, i / p, step + 1);
    }
  }

  /** One more read: position `n` completes a period exactly when `n % p == 0`. */
  lemma DivStep(n: nat, p: nat)
    requires n >= 1 && p >= 1
    ensures n % p == 0 ==> n / p == (n - 1) / p + 1 && (n / p) * p == n
    ensures n % p != 0 ==> n / p == (n - 1) / p
  {
    var q, r := (n - 1) / p, (n - 1) % p;
    assert n - 1 == q * p + r && 0 <= r < p;
    if r + 1 == p {
      ModUnique(n, p, q + 1, 0);
    } else {
      ModUnique(n, p, q, r + 1);
    }
  }

  /** The sampler keeps one read per full period: `|rs| / p` of them. */
  lemma {:induction false} SampledCount(rs: seq<Record>, skip: nat)
    requires skip < U16Limit
    ensures |Sampled(rs, skip)| == |rs| / Period(skip)
  {
    if |rs| > 0 {
      SampledCount(rs[..|rs| - 1], skip);
      DivStep(|rs|, Period(skip));
    }
  }

  /**
   * The `j`-th kept read is the read at 1-based position `(j + 1) * p`: with the count
   * above, the sampler keeps exactly the reads at positions `p, 2p, 3p, ...`.
   */
  lemma {:induction false} SampledAt(rs: seq<Record>, skip: nat, j: nat)
    requires skip < U16Limit
    requires j < |Sampled(rs, skip)|
    ensures 1 <= (j + 1) * Period(skip) <= |rs|
    ensures Sampled(rs, skip)[j] == rs[(j + 1) * Period(skip) - 1]
  {
    var n, p := |rs|, Period(skip);
    var prev := rs[..n - 1];
    MulAtLeast(j + 1, p);
    if j < |Sampled(prev, skip)| {
      SampledAt(prev, skip, j);
    } else {
      SampledCount(prev, skip);
      DivStep(n, p);
      assert j + 1 == n / p;
    }
  }

  /** With `skip = 1` every read is kept. */
  lemma {:induction false} SampleEveryRead(rs: seq<Record>)
    ensures Sampled(rs, 1) == rs
  {
    if |rs| > 0 {
      SampleEveryRead(rs[..|rs| - 1]);
      assert rs == rs[..|rs| - 1] + [rs[|rs| - 1]];
    }
  }
}
