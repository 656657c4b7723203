# fasterplot core in Dafny

fasterplot reads a FASTQ file and prints one of three reports about its reads:

- the base yield over quality values (`--qscore`)
- the base yield over read-length bins (`--len`)
- the Nx values N100 down to N10 (`--nx`)

All three reports come from integer bookkeeping in the one function `main`. This project
models that bookkeeping as Dafny modules, each proved against a specification:

- `Reads`: the record (a length and a Phred+33 quality string of raw byte codes), sums
  over sequences, and the loop that buffers read lengths and adds up `bases`.
- `Sampler`: the `u16` stride counter that keeps one read in `skip`.
- `Report`: the running "bases above" cascade that both tables print.
- `QScore`: the quality table as a 94-cell array keyed by `code - 33`, and its report
  over quality values 0..50.
- `LengthBins`: validation of `--maxlen`, the bin keys, placement of each length into
  its bin, the maximum bin, and the report.
- `Nx`: the in-place ascending sort, the prefix sums, and the search for each threshold.
- `Arith`: three facts about multiplication and division that the others use.

The program's exits are modelled as `Result` and outcome datatypes:

- `max().unwrap()` on an empty run becomes `EmptyRun`.
- `exit(1)` on a too-small `--maxlen` becomes `MaxlenTooSmall`.
- `position(..).unwrap()` finding nothing becomes `NoSumAboveTarget`.
- `exit(0)` after a histogram becomes the outcome that carries the histogram's values.

Where the intended behaviour and the code part ways, the model follows the code:

- `max_by_key` reports the last of several equally large bins.
- With `--skip 0`, the counter wraps and keeps every 65536th read. It does not keep nothing.
- The last "bases above" of the length table is the number of bases in reads of length at
  most 1, not 0. Those reads are never binned, but their bases are in `bases`.
- Sorting is ascending, so the row labelled N100 reports the shortest read that passes
  the first threshold. The model keeps this inversion.

## Model

| member | source | states |
|---|---|---|
| Reads.CollectLengths | src/main.rs:131-140 | The buffered lengths are exactly the reads' lengths, in order, and `bases` is their sum. |
| Reads.SumOfPermutation | src/main.rs:205 | Reordering the lengths does not change their total. The Nx report depends on this, since it sums the sorted buffer. |
| Sampler.Sample | src/main.rs:90-96 | The counter loop, with the `u16` wrap and the reset after each kept read, keeps exactly the reads at 1-based positions that are multiples of the period, in order. |
| Sampler.CounterStep | src/main.rs:92-96 | One bump of the counter, then the reset, keeps it equal to the number of reads seen modulo the period. The counter reaches `skip` exactly at the positions that are kept. |
| Sampler.SampledCount | src/main.rs:129-136 | Sampling `n` reads keeps `n / skip` of them, and `n / 65536` when `skip` is 0. |
| Sampler.SampledAt | src/main.rs:129-136 | The `j`-th kept read is the read at 1-based position `(j + 1) * skip`. |
| Sampler.SampleEveryRead | src/main.rs:92-96 | With `skip = 1` every read is kept. |
| Report.Tabulate | src/main.rs:115-124 | Row `j` reports its key, its count, and the total less the counts of every key up to and including its own. With non-negative counts, the "above" column never increases. |
| QScore.TallyCodes | src/main.rs:98-105 | Each cell grows by the occurrences of its code in one quality string. Codes outside 33..126 change no cell. With `--hist`, every code less 33 goes to the histogram, in order. |
| QScore.TallyQualities | src/main.rs:81-106 | The table starts as 94 zero cells. Afterwards each cell counts its code across all sampled quality strings, and `bases` is the sum of the sampled lengths. With one in-domain code per base, the cells add up to `bases`. |
| QScore.TallyTotal | src/main.rs:97-105 | A table of code counts over reads with one in-domain code per base sums to the number of bases. |
| QScore.TallyPrefix | src/main.rs:116-117 | The first `k` cells sum to the number of codes in `33..33+k-1`, which is what the cascade subtracts. |
| QScore.RunQScore | src/main.rs:80-124 | With `--hist`, the result is the histogram values. Otherwise there are 51 rows. Row `j` reports quality `j`, the sampled bases with code `33 + j`, and the sampled bases less those with codes up to `33 + j`. For well-formed reads, that last figure is the count of bases with a quality above `j`. The "above" column never increases down the table. |
| LengthBins.BinKeys | src/main.rs:161-165 | The keys are exactly `1 + k * w` for the `k` with `1 + k * w < maxlen`, with none missing past the last, in strictly increasing order. |
| LengthBins.FindBin | src/main.rs:173 | Finds the first key at or above `l`, or none when every key is below `l`. |
| LengthBins.BinIndexIsCeiling | src/main.rs:173 | `BinIndex(l, w)` is the first `k` with `1 + k * w >= l`. |
| LengthBins.BinOfBoundary | src/main.rs:173 | The lookup's bin index is `k` for a length of exactly `1 + k * w`, so a length equal to any key past the first lands on that key. One base longer lands on the next key. A length of 1, equal to the first key, is discarded before the lookup. |
| LengthBins.BinLookup | src/main.rs:142-149 | Once validation has passed, every length above 1 has a key at or above it, and the first such key is bin `BinIndex`. So the `unwrap` never fails. |
| LengthBins.PlaceLengths | src/main.rs:167-175 | Bins start at 0. Lengths of at most 1 are skipped. Every other length adds its value, as bases, to the first key at or above it. |
| LengthBins.BinsConserve | src/main.rs:167-175 | The bins together hold every base except those of reads of length at most 1. |
| LengthBins.MaxLength | src/main.rs:142 | The longest length, or none exactly when no read was sampled. |
| LengthBins.MaxBin | src/main.rs:178-179 | The chosen bin has the largest total, and no later bin ties with it, so it is the last maximum. |
| LengthBins.BinRowsHold | src/main.rs:183-191 | The length cascade reports, after each bin, the bases of reads in later bins plus those of discarded reads. The last row is left with only the discarded reads, and the column never increases down the table. |
| LengthBins.AboveBinAntitone | src/main.rs:183-184 | Counting from a later bin never leaves more bases above it. |
| LengthBins.AboveNonIncreasing | src/main.rs:183-184 | Rows that report the bases above successive bins never report more further down the table. |
| LengthBins.MaxBinHolds | src/main.rs:178-181 | The reported `maxbin` is the largest key whose bin has the largest total, and `maxbin_bases` is that total. |
| LengthBins.LengthTable | src/main.rs:160-191 | The report's total is `bases`, its rows are the bins with their cascade, the "above" column never increases, and its header names the last largest bin. |
| LengthBins.RunLength | src/main.rs:127-159 | An empty sample fails with `EmptyRun`. The run is refused exactly when `maxlen < longest + window`, and the error carries both values. With `--hist`, the result is the sampled lengths. Otherwise the result is the full report over the sampled lengths. |
| Nx.InsertAt | src/main.rs:205 | One insertion step of the sort: the first `i + 1` cells end ascending, the cells after them are untouched, and the contents are a permutation of the old ones. |
| Nx.SortAscending | src/main.rs:205 | After the in-place sort, the buffer is ascending and a permutation of its old contents. |
| Nx.PrefixSums | src/main.rs:206-211 | Entry `j` is the sum of the first `j + 1` lengths. |
| Nx.FirstAbove | src/main.rs:218 | The first index whose running sum exceeds the target, or none exactly when no entry does. |
| Nx.TargetReached | src/main.rs:215-218 | When there are any bases, every threshold for `i = 0..9` is exceeded by some running sum, because the last one is the total. |
| Nx.NoBasesNoRow | src/main.rs:218 | With no bases, the first threshold is never exceeded, so `position(..).unwrap()` fails. |
| Nx.NxMonotone | src/main.rs:215-219 | Over ascending lengths, a higher threshold never reports a shorter read. |
| Nx.NxRows | src/main.rs:213-221 | Fails exactly when there are no bases. Otherwise there are 10 rows, labelled `100 - 10 * i`, each with the length at the first running sum above `i / 10` of the bases. Over ascending lengths, the reported lengths do not decrease. |
| Nx.RunNx | src/main.rs:195-221 | Every read is buffered and sorted into an ascending permutation with the same total. The report fails exactly when that total is 0, and otherwise its 10 rows have non-decreasing lengths. |

## Left out

- Command-line parsing through clap is left out. `skip`, `maxlen`, `window` and `hist` are parameters, and the ranges clap enforces are preconditions. Choosing the mode is left to the caller.
- Reading the FASTQ file through kseq is left out. The input is a sequence of records, each holding the length kseq reports and the quality string's byte codes.
- Histogram rendering through the histo library is left out. The model keeps only the values handed to it, in order.
- The percentage columns, their `{:.4}` formatting, and all printed text are left out, because they are floating point and output.
- Nx.NxRows: the threshold is the integer `total * i / 10`, not the source's `f32` product truncated to `i64`. The two can differ for large totals.
- The `i32`, `i64` and `u32` widths and casts are unbounded integers. The `u16` step counter is the one exception.
- Sampler.Sample: models the release-build wrap of the `u16` counter. In a debug build, `--skip 0` panics on overflow after 65535 reads instead.
- QScore.TallyCodes: codes outside 33..126 add new keys to the source's map. The fixed 94-cell table ignores them. Those keys never reach the printed range 33..83, and they do not touch `cumbases`.
- QScore.RunQScore: with `--hist`, a code below 33 underflows the source's `u64` subtraction. The model hands the histogram the negative difference instead.
- Sampler.Sample: sampling is a separate pass that yields the kept reads before they are tallied. The source tallies each read as it is kept, which gives the same totals.
