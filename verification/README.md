# Synthetic genome annotation: grid placer model

This project models the core of a small simulation script. The script builds a
synthetic genome annotation. It draws element lengths for four classes: exons,
retrotransposons, DNA transposons and non-coding segments. It then places every
element on a two-stranded coordinate grid without overlap.

The centre of the model is the grid placer `populate_grid`. The grid has two
rows, one per strand, and W columns. All cells start at 0, meaning unassigned.
The placer handles each element length in turn:

1. It draws a strand from `{0, 1}` and a start column from `[0, W - len)`.
2. It tests whether the drawn span sums to 0.
3. If it does, it writes the class tag into the span. If not, it draws again.

The script calls the placer four times on the same grid, with tags 1 to 4.

Randomness is an explicit stream of raw draws (`seq<nat>`). Each call to
`randint(lo, hi)` consumes one draw `r` and yields `lo + r % (hi - lo)`. Every
value of the range can come out (`RandIntCovers`), so the streams cover every
run of the script. When the stream runs out, the placer stops with
`Exhausted`. This bounds the retry loop, which in the script has no limit.
`randint` with an empty range (an element at least as long as the grid is
wide) is the `EmptyRange` failure. numpy raises `ValueError` there.

Modules:

- `Numbers`: `int()` on floats, integer and real sums, tag counts.
- `Grids`: the grid, `initialize_grid`, span writes and how they change counts.
- `Placement`: one attempt, the retry loop, `populate_grid`, and the claim facts
  (no overlap, no overwrite, frame, exact counts).
- `Genome`: the four class-ordered calls on the zero grid.
- `InPlace`: the placer over two mutable arrays. It sums the slice and writes
  the tag cell by cell, and it is proved equal to the functional `Populate`.
- `Lengths`: truncation bounds, loc/scale mapping of standard draws, per-class
  counts, composition sizes.
- `NonCoding`: the non-coding length and the batch-regeneration loop.

Observations the proofs make precise:

- The `sum() == 0` emptiness test means "all cells are 0" only on a grid with
  no negative cell. Every grid the script builds has none.
- The start bound of `randint` is exclusive, so `start + len <= W - 1`. The
  last column of either strand is never written. An element exactly W long
  cannot be placed even on an empty grid; it raises instead.
- The non-coding loop either never repeats or never ends. With
  `high = non_coding_length / 50000` and `low = 100`: if `low <= high`, every
  batch of 50,000 draws sums to at most `non_coding_length`, so the first
  batch is accepted (`FirstBatchFits`). If `high < low`, every batch sums to
  more, so no batch is ever accepted (`NoBatchEverFits`). Both results assume
  exact real arithmetic and numpy's `low + (high - low) * u` formula for
  `uniform`.
- For the exon class the script uses `(14544 - 2) / 6`, about 2423.67, as the
  standard deviation (`EstimatedStd`). With mean 462 on `[2, 14544]` the
  truncation interval is about `[-0.19, 5.81]` deviations, far from the
  symmetric `[-3, 3]` that a mean at the midpoint would give
  (`ExonBoundsSkewed`).

## Model

| member | source | states |
|---|---|---|
| Numbers.Trunc | simulation_v4.py:116 | `int(length)` rounds toward zero: a non-negative x gives the n with n <= x < n + 1; a negative x gives the n with n - 1 < x <= n |
| Numbers.SumZeroIffAllZero | simulation_v4.py:121 | on a slice with no negative cell, `sum() == 0` holds exactly when every cell is 0 (both directions) |
| Grids.InitializeGrid | simulation_v4.py:8-10 | the grid has `height` rows of `width` zeros; a two-row grid is well shaped, `width` wide, and every tag is 0 |
| Grids.Fill | simulation_v4.py:122 | slice assignment on one row: the cells in `[start, start + len)` hold the tag, every other cell keeps its value, and the length is unchanged |
| Grids.Commit | simulation_v4.py:122 | writing a span changes exactly the span's cells on its strand; the other strand and every other cell are unchanged, and the shape is kept |
| Grids.CommitCount | simulation_v4.py:122 | writing a free span moves exactly `len` cells from tag 0 to the written tag; every other tag keeps its count |
| Grids.SpanSumZeroIffFree | simulation_v4.py:121 | on a grid with no negative cell, the span sum is 0 exactly when every cell of the span is 0 |
| Grids.InitialCounts | simulation_v4.py:9 | the zero grid holds no cell of a nonzero tag and `2 * width` cells of tag 0 |
| Placement.RandInt | simulation_v4.py:119-120 | a draw lies in `[lo, hi)` and consumes one stream entry; an empty range fails with `EmptyRange` whatever the stream holds |
| Placement.RandIntCovers | simulation_v4.py:119-120 | every value of `[lo, hi)` is produced by some stream, so no run of the generator is lost |
| Placement.Attempt | simulation_v4.py:119-123 | one pass draws strand < 2 and a start with `start + len < W`, using two draws; a rejected pass leaves the grid unchanged and a committed pass writes exactly the span; it fails exactly when fewer than two draws remain or `len >= W` |
| Placement.AttemptCommitsIffFree | simulation_v4.py:121-123 | on a grid with no negative cell, a pass commits exactly when its drawn span is entirely unassigned |
| Placement.RejectedAttemptRetries | simulation_v4.py:118-121 | a rejected pass drew an occupied span, left the grid unchanged, and the loop continues with the rest of the stream |
| Placement.PlaceOne | simulation_v4.py:117-123 | the retry loop ends with a span of the element's length on strand 0 or 1 that ends before column W - 1, and the grid is that span written; `len >= W` always fails, and an `EmptyRange` failure happens only then |
| Placement.PlaceOneFree | simulation_v4.py:118-123 | the span a successful loop writes was entirely unassigned before |
| Placement.Populate | simulation_v4.py:114-123 | one span per length, of length `int(length)`, in bounds and ending before column W - 1; the grid keeps its shape; any length `>= W` makes the call fail |
| Placement.PopulateClaims | simulation_v4.py:114-123 | for a positive tag: the spans are pairwise disjoint, each was unassigned before and holds the tag after, every other cell is unchanged, and no cell becomes negative |
| Placement.PopulateCount | simulation_v4.py:114-123 | the tag's count grows by exactly the sum of the truncated lengths, tag 0 shrinks by the same amount, and every other tag keeps its count |
| Placement.PopulateNeverOverwrites | simulation_v4.py:121-122 | a cell that held a nonzero tag before the call keeps it |
| Placement.DisjointSpansSeparate | simulation_v4.py:121-122 | two disjoint nonempty spans on one strand lie one entirely before the other |
| Placement.ClaimsCompose | simulation_v4.py:126-129 | a claim made on the grid another claim left composes with it: all spans together are disjoint, and every other cell is unchanged |
| Placement.HoldsPreserved | simulation_v4.py:126-129 | cells claimed for an earlier class keep its tag through a later class's call |
| Placement.ThreeHundredCellsScenario | simulation_v4.py:114-123 | three lengths of 100 on an empty 2 x 1000 grid give exactly 300 cells tagged 1, and every start is below 900 |
| Genome.Annotate | simulation_v4.py:126-129 | the four class-ordered calls keep a 2 x W grid and give one span per element of each class |
| Genome.AnnotateSound | simulation_v4.py:126-129 | after all four calls: no two spans of any classes share a cell, each class's spans hold its tag, every cell outside all spans is 0, and every cell is in `{0, 1, 2, 3, 4}` |
| Genome.ChainClaims | simulation_v4.py:126-129 | four successive claims with tags 1 to 4 on the zero grid compose into one disjoint claim, and each class keeps its tag |
| Genome.AnnotateCounts | simulation_v4.py:126-129 | tag k occupies exactly the sum of class k's truncated lengths, and tag 0 holds the rest of the `2 * W` cells |
| Lengths.StandardBounds | simulation_v4.py:13 | mapping the standardised bounds back with `loc = mean` and `scale = stdv` gives `min_val` and `max_val`; with a positive scale and the mean inside the range they bracket 0 |
| Lengths.EstimatedStdSpansSixDeviations | simulation_v4.py:29 | with `stdv = (max - min) / 6` the standardised interval is exactly six deviations wide; for a mean inside the range the lower bound lies in `(-6, 0)` and the upper in `(0, 6)`, and the interval is `[-3, 3]` exactly when the mean is the range's midpoint |
| Lengths.ExonBoundsSkewed | simulation_v4.py:24-30 | the exon class's bounds (mean 462 on `[2, 14544]`) are about `[-0.19, 5.81]`: lower in `(-1, 0)`, upper in `(5, 6)`, so the truncated normal is far from symmetric |
| Lengths.SampleLengths | simulation_v4.py:12-16 | one sample per standard draw, and every sample lies in `[min_val, max_val]` |
| Lengths.ClassCount | simulation_v4.py:38-43 | `int(total / mean)` with `total = (genome - sum(exons)) * proportion`: for a non-negative total it is the largest n with `n * mean <= total` |
| Lengths.CompositionSizes | simulation_v4.py:98 | the chart's sizes are the exon, retrotransposon and DNA transposon sums followed by the non-coding length, and they add up to the genome size |
| Lengths.Percentages | simulation_v4.py:101 | each slice's percentage is its size times 100 over the total of the sizes |
| Lengths.PercentagesSumTo100 | simulation_v4.py:98-101 | the percentages of the composition sizes add up to 100 |
| NonCoding.AllClassesFit | simulation_v4.py:56-63 | whatever batch the loop accepts for the non-coding length the coding classes leave, the four classes' total length is at most the genome size |
| NonCoding.NonCodingSegments | simulation_v4.py:56-63 | the non-coding length and its loop together: an accepted batch has 50,000 segments, and with the coding classes it fits in the genome |
| NonCoding.FirstWithinBudget | simulation_v4.py:60-63 | the accepted batch is the first of the stream whose sum is within the budget, and every earlier batch exceeds it; no batch is accepted exactly when all exceed it |
| NonCoding.DrawSegments | simulation_v4.py:59-63 | the loop returns the first fitting batch: `SegmentCount` lengths summing to at most `non_coding_length` |
| NonCoding.BatchAtMostHigh | simulation_v4.py:60 | with `low <= high`, a batch of n draws sums to at most `n * high` |
| NonCoding.BatchAboveHigh | simulation_v4.py:60 | with `high < low`, a nonempty batch of n draws sums to more than `n * high` |
| NonCoding.FirstBatchFits | simulation_v4.py:60-63 | when `non_coding_length / 50000 >= 100`, the first batch is accepted |
| NonCoding.NoBatchEverFits | simulation_v4.py:60-63 | when `non_coding_length / 50000 < 100`, no batch is ever accepted, so the loop does not end |
| InPlace.SliceSum | simulation_v4.py:121 | the cell-by-cell sum of an array slice equals the sum of the slice |
| InPlace.FillRow | simulation_v4.py:122 | writing the tag cell by cell leaves the array equal to the row with the span filled |
| InPlace.TryOnce | simulation_v4.py:119-123 | one in-place pass returns what `Attempt` returns; the arrays then hold the pass's grid, and on a failure they are unchanged |
| InPlace.PlaceElement | simulation_v4.py:117-123 | the in-place retry loop returns what `PlaceOne` returns; the arrays then hold the grid with the span written, and on a failure they are unchanged |
| InPlace.PopulateArrays | simulation_v4.py:114-123 | `populate_grid` on caller-owned arrays mutated in place returns what `Populate` returns for the grid they held, and on success the arrays hold its grid |
| InPlace.PopulateInPlace | simulation_v4.py:114-123 | `populate_grid` over two fresh arrays copied from a grid gives the same grid, spans and remaining stream as `Populate` |
| InPlace.AnnotateInPlace | simulation_v4.py:126-129 | the four calls mutating one shared pair of zero arrays give exactly the annotation `Annotate` describes |

## Left out

- Plotting and PDF export (simulation_v4.py:19, 67-106) are presentation and I/O. Only the composition sizes and their percentages are modelled.
- The distributions of `truncnorm.rvs`, `uniform` and `randint` are not modelled. Draws are arbitrary values in their ranges: standard draws in the truncation bounds, unit draws in `[0, 1)`, and raw stream entries for `randint`.
- Seeding (simulation_v4.py:108) concerns generator state only. The stream parameter plays the generator's part.
- Placement.PlaceOne: returns `Exhausted` when the stream runs out, where the script draws forever. Termination and liveness of the retry loops are not claimed.
- NonCoding.DrawSegments: returns `NotConverged` when the stream of batches runs out, where the script redraws forever.
- Floating-point rounding in `sum()`, in `/` and in `int()` is not modelled. Lengths and totals are exact reals, and `int()` truncates exactly.
- Placement.Populate: requires every length to be non-negative. A negative `int(length)` would make numpy wrap the slice end around the row; every length the script passes is at least 2.
- Grids.Shaped: only the two-row grid the script builds is modelled. With one row, strand 1 would raise `IndexError`.
- On a failure the script stops with an exception and leaves a partly filled grid; the model returns only the failure.
- The physical grid size of 2 x 180,000,000 (simulation_v4.py:23, 111) is not fixed. The width is a parameter.
- The script's literal parameters (means, bounds, proportions, 14,000 exons) are parameters of the model functions. Only the non-coding constants (50,000 segments, minimum length 100) appear as constants.
