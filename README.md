# Barnes-Hut t-SNE: affinity calibration, symmetrization and the optimiser

This project is a Dafny model of the core of `BarnesHutTsne.java` (deeplearning4j).
That core is the tree-accelerated t-SNE that embeds high-dimensional points in a
low-dimensional space. The model covers the three stages of `fit()`:

- **Calibration** (`computeGaussianPerplexity`, `computeGaussianKernel`). The
  neighbour count is `k = (int)(3 * perplexity)`, and the perplexity check can throw.
  Each point's Gaussian kernel row and its entropy are computed, followed by the
  bracketing search for the precision `beta`: at most 200 refinements, with the
  `Double.MAX_VALUE` sentinels. The row offsets, neighbour indices and normalised
  kernel values are then written into the compressed-sparse-row arrays `rows`,
  `cols` and `vals`.
- **Symmetrization** (`symmetrized`). Pass 1 counts the entries of each row (the
  mirror scan). The counts give the new row offsets, pass 2 places the entries
  through the per-row `offset` counters, and the result is halved.
- **Optimisation** (`fit`, `step`, `gradient`, `update(INDArray, String)`). The
  random start is scaled by the float `1e-3f`. The affinities are normalised and
  multiplied by 12. Each step applies the gain masks, the clamp at `minGain`, the
  AdaGrad or learning-rate step, the velocity update and the position update. The
  momentum switches after `switchMomentumIteration`, and the x12 is divided out
  after `stopLyingIteration`.

Modules:

- `Common`: sums, element-wise division and scaling, flattening of rows.
- `Perplexity`: the calibration.
- `Symmetrize`: `symmetrized`, written as folds over the stored entries. Imperative
  methods on arrays are proved equal to those folds.
- `SymmetrizeExample`: a worked three-point instance.
- `Optimizer`: the element-wise update rules and the schedule.
- `Tsne`: the class `BarnesHutTsne`. It holds the state `fit` mutates: `N`, `rows`,
  `cols`, `vals`, `Y`, `gains`, `yIncs`, `momentum` and the force tree `tree` (kept
  as the positions it was built from).

Code that works on arrays in place stays imperative. The pure rules are functions,
and each method is proved against those functions.

Where the code departs from textbook Barnes-Hut t-SNE, the model follows the
code. The departures are these:

- **The searched `beta` is discarded.** The kernel row that is stored is the one
  computed at `beta = 1` (line 195). The search of lines 201-225 only reassigns
  `pair`, so its result never reaches `vals` (`Perplexity.NormalizedKernel`).
- **Pass 2 of `symmetrized` only checks the first mirror slot.** Its mirror loop
  runs from `rowP[col]` to `rowP[col] + 1` (line 348), not to `rowP[col + 1]`, so
  only the first entry of the column's row is compared. A mirror stored in a later
  slot is missed, and the output is then neither symmetric nor mass-preserving.
  `SymmetrizeExample.RingSymmetrized` shows a symmetric input of mass 3 whose
  symmetrized values sum to 2.
- **The gains are sums of two 0/1 masks** (`neqi`, lines 494-495). They are not
  the "x0.8 / +0.2" rule. `Optimizer.RawGainCases` states what the masks amount
  to: with a non-zero gradient and a positive gain other than 0.8 and 1.25, the
  gain is always 2.
- **Lazy creation.** `gains` and `yIncs` are created lazily in `gradient()`.
- **`N` is set before the perplexity check** in `computeGaussianPerplexity`, so it
  is set even when the check throws.
- **The force tree is built once.** `SpTree` is built on the first call to
  `gradient()` (lines 684-685) and cached in a field. Every later gradient uses the
  tree built from the positions Y had at that first call, together with the current
  Y (`Tsne.BarnesHutTsne.Gradient`, `Tsne.BarnesHutTsne.Trajectory`).
- **The normalising total is taken from the calibrated `vals`**, which sum to the
  number of points, not from the symmetrized values (line 454).

## Model

Source paths are relative to the repository root.

| member | source | states |
|---|---|---|
| Perplexity.Trunc | deeplearning4j-core/src/main/java/org/deeplearning4j/plot/BarnesHutTsne.java:165 | the `(int)` cast truncates toward zero: the result is within 1 of x, on x's side of 0 |
| Perplexity.NeighbourCount | deeplearning4j-core/src/main/java/org/deeplearning4j/plot/BarnesHutTsne.java:165-167 | the check fails exactly when u > (int)(3u); otherwise k = (int)(3u) and u <= k |
| Perplexity.NeighbourCountAccepts | deeplearning4j-core/src/main/java/org/deeplearning4j/plot/BarnesHutTsne.java:165-167 | the accepted perplexities are exactly those >= 1/3 or in (-1/3, 0]; a positive accepted perplexity gives k >= 1 |
| Perplexity.Affinities | deeplearning4j-core/src/main/java/org/deeplearning4j/plot/BarnesHutTsne.java:403-405 | k entries, entry m is exp(-beta * distances[m + 1]) and is positive |
| Perplexity.GaussianKernel | deeplearning4j-core/src/main/java/org/deeplearning4j/plot/BarnesHutTsne.java:401-415 | the row has k positive entries exp(-beta * d[m + 1]), skipping the self distance, and a positive sum |
| Perplexity.KernelOfRow | deeplearning4j-core/src/main/java/org/deeplearning4j/plot/BarnesHutTsne.java:407-414 | the kernel row is returned unchanged beside its entropy |
| Perplexity.Energies | deeplearning4j-core/src/main/java/org/deeplearning4j/plot/BarnesHutTsne.java:409-410 | one term beta * (d[m + 1] * p[m]) per entry of the row |
| Perplexity.KernelEntropyIsExpectedEnergy | deeplearning4j-core/src/main/java/org/deeplearning4j/plot/BarnesHutTsne.java:407-412 | the entropy h equals beta times the expected distance under the normalised row, plus log of the row sum |
| Perplexity.KernelIgnoresSelf | deeplearning4j-core/src/main/java/org/deeplearning4j/plot/BarnesHutTsne.java:401-415 | two distance rows that agree on positions 1..k give the same kernel row and entropy |
| Perplexity.Normalize | deeplearning4j-core/src/main/java/org/deeplearning4j/plot/BarnesHutTsne.java:228 | each entry times the row sum gives back the original entry |
| Perplexity.NormalizeSumsToOne | deeplearning4j-core/src/main/java/org/deeplearning4j/plot/BarnesHutTsne.java:228 | a row divided by its own sum sums to 1 |
| Perplexity.Refine | deeplearning4j-core/src/main/java/org/deeplearning4j/plot/BarnesHutTsne.java:205-218 | the old candidate becomes the lower bound on a positive gap and the upper bound otherwise, the other bound is kept, and a positive candidate with a positive or unset bound stays positive |
| Perplexity.RefineKeepsBracket | deeplearning4j-core/src/main/java/org/deeplearning4j/plot/BarnesHutTsne.java:205-218 | a refinement keeps the bracket well formed and nested. A positive gap moves beta up and makes the old beta the lower bound; otherwise beta moves down and becomes the upper bound. Beta doubles or halves while that side is unset, and otherwise stays strictly inside the old bracket |
| Perplexity.CapBelowMaxDouble | deeplearning4j-core/src/main/java/org/deeplearning4j/plot/BarnesHutTsne.java:188-209 | 2^200 < Double.MAX_VALUE, so the 200-try search never doubles into the sentinel |
| Perplexity.WithinTolerance | deeplearning4j-core/src/main/java/org/deeplearning4j/plot/BarnesHutTsne.java:202 | holds exactly when the absolute entropy gap is below the tolerance, which is then positive |
| Perplexity.SearchStepExtends | deeplearning4j-core/src/main/java/org/deeplearning4j/plot/BarnesHutTsne.java:201-222 | one refinement of an unfinished search extends the explored trail and keeps beta and the upper bound below 2^(tries + 1) |
| Perplexity.SearchBeta | deeplearning4j-core/src/main/java/org/deeplearning4j/plot/BarnesHutTsne.java:188-225 | at most 200 tries. Every visited bracket starts from (1, -MAX, MAX), is well formed, and is the refinement of the one before, whose gap failed the tolerance. `found` holds iff the search stopped before 200 tries, and then the gap is within the tolerance. hDiff is entropy(beta) - log u |
| Perplexity.RefineStep | deeplearning4j-core/src/main/java/org/deeplearning4j/plot/BarnesHutTsne.java:205-218 | the three search variables are updated exactly as `Refine` says |
| Perplexity.RowOffsets | deeplearning4j-core/src/main/java/org/deeplearning4j/plot/BarnesHutTsne.java:170-175 | n + 1 offsets starting at 0, each the previous plus k |
| Perplexity.RowOffsetsAreMultiples | deeplearning4j-core/src/main/java/org/deeplearning4j/plot/BarnesHutTsne.java:170-175 | offset j is j * k, the offsets never decrease, and the last is n * k |
| Perplexity.RowOffsetsArray | deeplearning4j-core/src/main/java/org/deeplearning4j/plot/BarnesHutTsne.java:170-175 | the loop leaves the fresh `rows` array equal to `RowOffsets(n, k)` |
| Perplexity.NeighbourIndex | deeplearning4j-core/src/main/java/org/deeplearning4j/plot/BarnesHutTsne.java:229-234 | slot l is search result l + 1 while results last; any non-zero slot is one of the results after the first (the point itself) |
| Perplexity.NeighbourRow | deeplearning4j-core/src/main/java/org/deeplearning4j/plot/BarnesHutTsne.java:229-237 | slot l holds the index of search result l + 1, or 0 when fewer results came back |
| Perplexity.NeighbourIndices | deeplearning4j-core/src/main/java/org/deeplearning4j/plot/BarnesHutTsne.java:229-234 | k + 1 slots: slot j holds result j while results last and 0 after the loop breaks; slots 1..k are the neighbour row |
| Perplexity.CalibratedCols | deeplearning4j-core/src/main/java/org/deeplearning4j/plot/BarnesHutTsne.java:171 | the column array holds n * k entries |
| Perplexity.CalibratedColsBounded | deeplearning4j-core/src/main/java/org/deeplearning4j/plot/BarnesHutTsne.java:229-237 | search results naming points 0..n-1 give column indices in 0..n-1 |
| Perplexity.CalibratedColsRow | deeplearning4j-core/src/main/java/org/deeplearning4j/plot/BarnesHutTsne.java:236-237 | the slots of points 0..i-1 followed by point i's slots are a prefix of `cols` |
| Perplexity.NormalizedKernel | deeplearning4j-core/src/main/java/org/deeplearning4j/plot/BarnesHutTsne.java:195-228 | the stored row is the beta = 1 kernel row normalised: k positive entries |
| Perplexity.CalibratedRow | deeplearning4j-core/src/main/java/org/deeplearning4j/plot/BarnesHutTsne.java:236-238 | the row stored for a point has k entries (none when k = 0) |
| Perplexity.FirstShortRow | deeplearning4j-core/src/main/java/org/deeplearning4j/plot/BarnesHutTsne.java:401-405 | none iff every distance row can be read at positions 1..k; otherwise the first row that cannot, with all earlier rows long enough |
| Perplexity.CalibratedVals | deeplearning4j-core/src/main/java/org/deeplearning4j/plot/BarnesHutTsne.java:172 | the value array holds n * k entries |
| Perplexity.CalibratedValsPositive | deeplearning4j-core/src/main/java/org/deeplearning4j/plot/BarnesHutTsne.java:228-238 | every calibrated affinity is positive |
| Perplexity.CalibratedValsRow | deeplearning4j-core/src/main/java/org/deeplearning4j/plot/BarnesHutTsne.java:236-238 | the rows of points 0..i-1 followed by point i's row are a prefix of `vals` |
| Perplexity.CalibratedValsSum | deeplearning4j-core/src/main/java/org/deeplearning4j/plot/BarnesHutTsne.java:228-238 | every stored row sums to 1, so all of `vals` sums to the number of points |
| Perplexity.StoreRow | deeplearning4j-core/src/main/java/org/deeplearning4j/plot/BarnesHutTsne.java:236-239 | the write loop puts `indices[1..]` and the row into `cols` and `vals` at the point's offset; everything else is unchanged |
| Symmetrize.HasMirror | deeplearning4j-core/src/main/java/org/deeplearning4j/plot/BarnesHutTsne.java:315-320 | a mirror found means row c is non-empty and r is a stored column; a mirror in the first slot of row c is found |
| Symmetrize.Tally | deeplearning4j-core/src/main/java/org/deeplearning4j/plot/BarnesHutTsne.java:321-329 | row r gains one count, row c gains one more unless the mirror is stored (two for r = c without a mirror), and no other row changes |
| Symmetrize.CountEntry | deeplearning4j-core/src/main/java/org/deeplearning4j/plot/BarnesHutTsne.java:315-330 | row r gains at least one count and only row r and the column's row change |
| Symmetrize.TallyTotal | deeplearning4j-core/src/main/java/org/deeplearning4j/plot/BarnesHutTsne.java:323-329 | counting an entry adds 1 to the total when its mirror is stored, 2 otherwise |
| Symmetrize.CountRow | deeplearning4j-core/src/main/java/org/deeplearning4j/plot/BarnesHutTsne.java:313-330 | counting a row's entries never lowers any row's count |
| Symmetrize.CountRowTotal | deeplearning4j-core/src/main/java/org/deeplearning4j/plot/BarnesHutTsne.java:313-330 | each entry of the row adds between one and two to the total count |
| Symmetrize.Counts | deeplearning4j-core/src/main/java/org/deeplearning4j/plot/BarnesHutTsne.java:311-331 | n non-negative counts whose total lies between the number of stored entries and twice that |
| Symmetrize.NumElements | deeplearning4j-core/src/main/java/org/deeplearning4j/plot/BarnesHutTsne.java:334 | `numElements` lies between nnz and 2 nnz |
| Symmetrize.PrefixSums | deeplearning4j-core/src/main/java/org/deeplearning4j/plot/BarnesHutTsne.java:340-341 | `symRowP` starts at 0, each entry is the previous plus that row's count, and the last is the total |
| Symmetrize.PrefixSumsMonotone | deeplearning4j-core/src/main/java/org/deeplearning4j/plot/BarnesHutTsne.java:340-341 | with non-negative counts the offsets are non-decreasing and between 0 and the total |
| Symmetrize.PlaceEntry | deeplearning4j-core/src/main/java/org/deeplearning4j/plot/BarnesHutTsne.java:346-382 | placing one entry keeps the array lengths, never lowers an offset, and writes nothing when col <= row |
| Symmetrize.Placed | deeplearning4j-core/src/main/java/org/deeplearning4j/plot/BarnesHutTsne.java:362-381 | the writes keep the array lengths and never lower an offset; with r < c slot q holds (r, v) and slot p holds v and, when distinct from q, column c; with c <= r the columns and values are untouched |
| Symmetrize.PlaceRow | deeplearning4j-core/src/main/java/org/deeplearning4j/plot/BarnesHutTsne.java:346-382 | placing a row keeps the array lengths and never lowers an offset |
| Symmetrize.PassTwo | deeplearning4j-core/src/main/java/org/deeplearning4j/plot/BarnesHutTsne.java:345-383 | pass 2 yields `numElements`-long arrays and non-negative offsets, or the first index error |
| Symmetrize.Symmetrized | deeplearning4j-core/src/main/java/org/deeplearning4j/plot/BarnesHutTsne.java:310-391 | succeeds iff pass 2 does; then it returns `numElements` values, each half of what pass 2 placed |
| Symmetrize.PlaceRowNonNegative | deeplearning4j-core/src/main/java/org/deeplearning4j/plot/BarnesHutTsne.java:346-382 | placing a row keeps placed values non-negative when the inputs are |
| Symmetrize.PassTwoNonNegative | deeplearning4j-core/src/main/java/org/deeplearning4j/plot/BarnesHutTsne.java:345-383 | pass 2 places only non-negative values when the inputs are non-negative |
| Symmetrize.SymmetrizedNonNegative | deeplearning4j-core/src/main/java/org/deeplearning4j/plot/BarnesHutTsne.java:345-386 | non-negative affinities give non-negative symmetrized affinities |
| Symmetrize.ScanForMirror | deeplearning4j-core/src/main/java/org/deeplearning4j/plot/BarnesHutTsne.java:317-320 | the scan of row c finds r iff some entry of row c has column r |
| Symmetrize.CountEntryStep | deeplearning4j-core/src/main/java/org/deeplearning4j/plot/BarnesHutTsne.java:315-330 | the counters change exactly as `CountEntry` says |
| Symmetrize.CountRowStep | deeplearning4j-core/src/main/java/org/deeplearning4j/plot/BarnesHutTsne.java:313-330 | the counters after the row loop are `CountRow` of the counters before |
| Symmetrize.CountRows | deeplearning4j-core/src/main/java/org/deeplearning4j/plot/BarnesHutTsne.java:312-331 | from zero counters, the loop over the rows leaves `Counts` |
| Symmetrize.CountPass | deeplearning4j-core/src/main/java/org/deeplearning4j/plot/BarnesHutTsne.java:311-331 | the fresh `rowCounts` array holds `Counts` |
| Symmetrize.PrefixPass | deeplearning4j-core/src/main/java/org/deeplearning4j/plot/BarnesHutTsne.java:336-341 | the fresh `symRowP` array holds the prefix sums of the counts |
| Symmetrize.PlaceRowStopped | deeplearning4j-core/src/main/java/org/deeplearning4j/plot/BarnesHutTsne.java:346-382 | once an entry fails, pass 2 over the row fails with the same error |
| Symmetrize.PassTwoStopped | deeplearning4j-core/src/main/java/org/deeplearning4j/plot/BarnesHutTsne.java:345-383 | once a row fails, pass 2 over all later rows fails with the same error |
| Symmetrize.PlaceEntryStep | deeplearning4j-core/src/main/java/org/deeplearning4j/plot/BarnesHutTsne.java:346-382 | on the arrays: either the state `PlaceEntry` yields, or its error |
| Symmetrize.PlaceWrites | deeplearning4j-core/src/main/java/org/deeplearning4j/plot/BarnesHutTsne.java:362-381 | the writes of one entry produce exactly the `Placed` state |
| Symmetrize.PlaceRowStep | deeplearning4j-core/src/main/java/org/deeplearning4j/plot/BarnesHutTsne.java:346-382 | on the arrays: either the state `PlaceRow` yields, or its error |
| Symmetrize.PlaceRows | deeplearning4j-core/src/main/java/org/deeplearning4j/plot/BarnesHutTsne.java:345-383 | from the initial state, the loop over the rows yields `PassTwo`'s state or its error |
| Symmetrize.PlacePass | deeplearning4j-core/src/main/java/org/deeplearning4j/plot/BarnesHutTsne.java:335-383 | the fresh `symValP` holds pass 2's values, or pass 2's error is returned |
| Symmetrize.SymmetrizedValues | deeplearning4j-core/src/main/java/org/deeplearning4j/plot/BarnesHutTsne.java:310-391 | the array method returns exactly `Symmetrized`: its values in a fresh array, or its error |
| SymmetrizeExample.RingCounts | deeplearning4j-core/src/main/java/org/deeplearning4j/plot/BarnesHutTsne.java:311-331 | on the three-point ring every entry has its mirror, and pass 1 counts two per row |
| SymmetrizeExample.RingPlaced | deeplearning4j-core/src/main/java/org/deeplearning4j/plot/BarnesHutTsne.java:345-383 | on the ring pass 2 leaves slot 3 unwritten and places the pair (1, 2) without its mirror's value |
| SymmetrizeExample.RingSymmetrized | deeplearning4j-core/src/main/java/org/deeplearning4j/plot/BarnesHutTsne.java:310-391 | a symmetric input of mass 3 comes out with mass 2 |
| Optimizer.Sign | deeplearning4j-core/src/main/java/org/deeplearning4j/plot/BarnesHutTsne.java:494-495 | the sign is -1, 0 or 1, zero exactly for 0, and never opposite to its argument |
| Optimizer.Differs | deeplearning4j-core/src/main/java/org/deeplearning4j/plot/BarnesHutTsne.java:494-495 | the `neqi` mask is 0 or 1, and 1 exactly when the entries differ |
| Optimizer.RawGain | deeplearning4j-core/src/main/java/org/deeplearning4j/plot/BarnesHutTsne.java:494-495 | the unclamped gain is a sum of two 0/1 masks: 0, 1 or 2 |
| Optimizer.RawGainCases | deeplearning4j-core/src/main/java/org/deeplearning4j/plot/BarnesHutTsne.java:494-495 | with a zero gradient the gain is 0 or 2 as the velocity is zero or not; with a non-zero gradient and a positive gain other than 0.8 and 1.25 it is 2; at 0.8 it is 1 or 2 |
| Optimizer.ClampGain | deeplearning4j-core/src/main/java/org/deeplearning4j/plot/BarnesHutTsne.java:497 | the clamped gain is at least `minGain` and is the raw gain or `minGain` |
| Optimizer.NextGains | deeplearning4j-core/src/main/java/org/deeplearning4j/plot/BarnesHutTsne.java:494-497 | every new gain is at least `minGain`, is one of `minGain`, 0, 1, 2, and is the clamped mask sum of its coordinate |
| Optimizer.GainsSettleAtTwo | deeplearning4j-core/src/main/java/org/deeplearning4j/plot/BarnesHutTsne.java:494-497 | from gains of 1 or 2, with no zero gradient and `minGain` <= 2, every gain becomes 2 |
| Optimizer.Products | deeplearning4j-core/src/main/java/org/deeplearning4j/plot/BarnesHutTsne.java:500 | coordinate j of `gains.mul(yGrads)` is gains[j] * grads[j] |
| Optimizer.ScaledStep | deeplearning4j-core/src/main/java/org/deeplearning4j/plot/BarnesHutTsne.java:500-510 | without AdaGrad, coordinate j of the step is gains[j] * grads[j] * learningRate |
| Optimizer.GradChange | deeplearning4j-core/src/main/java/org/deeplearning4j/plot/BarnesHutTsne.java:500-510 | the step has the length of the gradient |
| Optimizer.NextIncs | deeplearning4j-core/src/main/java/org/deeplearning4j/plot/BarnesHutTsne.java:512 | the new velocity is incs[j] * momentum - change[j] |
| Optimizer.Advance | deeplearning4j-core/src/main/java/org/deeplearning4j/plot/BarnesHutTsne.java:513 | each position moves by its velocity |
| Optimizer.NextGainsArray | deeplearning4j-core/src/main/java/org/deeplearning4j/plot/BarnesHutTsne.java:494-497 | the fresh gains array holds `NextGains` |
| Optimizer.StepVelocity | deeplearning4j-core/src/main/java/org/deeplearning4j/plot/BarnesHutTsne.java:512 | `yIncs` in place becomes `NextIncs` of its old value |
| Optimizer.UpdateState | deeplearning4j-core/src/main/java/org/deeplearning4j/plot/BarnesHutTsne.java:494-513 | one update of the optimiser state: gains first, then the velocity from them, then the positions; every new gain is at least `minGain` and the lengths are kept |
| Optimizer.AdvancePositions | deeplearning4j-core/src/main/java/org/deeplearning4j/plot/BarnesHutTsne.java:513 | Y in place becomes `Advance` of its old value |
| Optimizer.FirstStepDescends | deeplearning4j-core/src/main/java/org/deeplearning4j/plot/BarnesHutTsne.java:500-513 | from rest, with positive gains and learning rate, every coordinate moves against its gradient's sign |
| Optimizer.CoastingUnderMomentum | deeplearning4j-core/src/main/java/org/deeplearning4j/plot/BarnesHutTsne.java:512-513 | with a zero step, each position moves by momentum times its old velocity |
| Optimizer.MomentumAt | deeplearning4j-core/src/main/java/org/deeplearning4j/plot/BarnesHutTsne.java:457-461 | the momentum of a step is the initial or the final one, and never the final one when the switch step is negative |
| Optimizer.ExaggerationAt | deeplearning4j-core/src/main/java/org/deeplearning4j/plot/BarnesHutTsne.java:456-463 | the factor is 12 or 1, and 12 exactly while the step has not passed `stopLyingIteration` (always when it is negative) |
| Optimizer.Exaggerated | deeplearning4j-core/src/main/java/org/deeplearning4j/plot/BarnesHutTsne.java:456-463 | the affinities at step i are p times 12 up to `stopLyingIteration`, p after it |
| Optimizer.ScheduleBoundaries | deeplearning4j-core/src/main/java/org/deeplearning4j/plot/BarnesHutTsne.java:457-463 | momentum and exaggeration each change once: the start values through the switch step, the final values afterwards, never back |
| Tsne.CalibratedMatrix | deeplearning4j-core/src/main/java/org/deeplearning4j/plot/BarnesHutTsne.java:170-239 | the matrix the calibration leaves: the offsets `RowOffsets`, the slots `CalibratedCols` and the rows `CalibratedVals`; its shape is stated by `Tsne.CalibratedMatrixValid` |
| Tsne.CalibratedMatrixValid | deeplearning4j-core/src/main/java/org/deeplearning4j/plot/BarnesHutTsne.java:170-239 | the calibrated matrix is readable by `symmetrized`: n + 1 non-decreasing offsets within bounds, and column indices naming points |
| Tsne.ZeroTotalMeansEmpty | deeplearning4j-core/src/main/java/org/deeplearning4j/plot/BarnesHutTsne.java:454 | the calibrated values sum to 0 only when there are none, and symmetrizing no values gives none |
| Tsne.NormalizedAffinities | deeplearning4j-core/src/main/java/org/deeplearning4j/plot/BarnesHutTsne.java:453-454 | succeeds iff `symmetrized` does, with its error otherwise; the result has as many values as the symmetrized matrix, and each times the calibrated total gives the symmetrized value back when the total is non-zero |
| Tsne.InputAffinities | deeplearning4j-core/src/main/java/org/deeplearning4j/plot/BarnesHutTsne.java:453-454 | the affinities `fit` optimises, or the calibration or `symmetrized` error that stops it; a success implies that the perplexity check passed and every distance row was long enough |
| Tsne.InputAffinitiesNonNegative | deeplearning4j-core/src/main/java/org/deeplearning4j/plot/BarnesHutTsne.java:453-454 | the normalised symmetrized affinities `fit` optimises are never negative |
| Tsne.BarnesHutTsne.constructor | deeplearning4j-core/src/main/java/org/deeplearning4j/plot/BarnesHutTsne.java:97-120 | stores the configuration; no array exists yet |
| Tsne.BarnesHutTsne.ComputeGaussianPerplexity | deeplearning4j-core/src/main/java/org/deeplearning4j/plot/BarnesHutTsne.java:162-246 | N is set. The call succeeds iff the perplexity passes and every distance row is long enough; otherwise it returns the k error (leaving the arrays alone) or the first short row. On success `rows`, `cols` and `vals` are fresh and hold the offsets, the neighbour slots and the normalised kernel rows |
| Tsne.BarnesHutTsne.CalibrateAll | deeplearning4j-core/src/main/java/org/deeplearning4j/plot/BarnesHutTsne.java:170-240 | fresh arrays with the offsets and, unless a row is short (reported as the first short row), all neighbour slots and kernel rows |
| Tsne.BarnesHutTsne.CalibrateRows | deeplearning4j-core/src/main/java/org/deeplearning4j/plot/BarnesHutTsne.java:184-243 | the loop over the points reports the first short row, or fills `cols` and `vals` completely |
| Tsne.BarnesHutTsne.CalibratePoint | deeplearning4j-core/src/main/java/org/deeplearning4j/plot/BarnesHutTsne.java:184-240 | a point succeeds iff its row is long enough, and then its slots and row extend the stored prefix |
| Tsne.BarnesHutTsne.StorePoint | deeplearning4j-core/src/main/java/org/deeplearning4j/plot/BarnesHutTsne.java:236-239 | writing point i at offset i * k extends the stored prefixes by point i |
| Tsne.BarnesHutTsne.Gradient | deeplearning4j-core/src/main/java/org/deeplearning4j/plot/BarnesHutTsne.java:674-697 | `yIncs` (zeros) and `gains` (ones) are created with Y's length on first use and kept afterwards. The force tree is built from the current Y on the first call and kept afterwards. The gradient is the force computation of that tree at the current Y with the affinity matrix |
| Tsne.BarnesHutTsne.Update | deeplearning4j-core/src/main/java/org/deeplearning4j/plot/BarnesHutTsne.java:491-515 | the new gains array is `NextGains`, the velocity becomes `NextIncs` with the AdaGrad or learning-rate step, and Y advances by the new velocity |
| Tsne.BarnesHutTsne.Step | deeplearning4j-core/src/main/java/org/deeplearning4j/plot/BarnesHutTsne.java:485-487 | the new optimiser state (Y, gains, velocities) is `UpdateState` of the old one, with ones and zeros on the first step, under the gradient of the force tree at the old Y; the tree is the first one built |
| Tsne.BarnesHutTsne.Iterate | deeplearning4j-core/src/main/java/org/deeplearning4j/plot/BarnesHutTsne.java:457-464 | the step's new state is `UpdateState` of the old one with the gradient on the affinities of schedule step i and the momentum before the switch; afterwards the momentum has switched iff i is the switch step, and the affinities are those of schedule step i + 1 |
| Tsne.BarnesHutTsne.Trajectory | deeplearning4j-core/src/main/java/org/deeplearning4j/plot/BarnesHutTsne.java:457-470 | the optimiser state after i steps keeps the shape of the start, and after at least one step every gain is at least `minGain` |
| Tsne.BarnesHutTsne.Descend | deeplearning4j-core/src/main/java/org/deeplearning4j/plot/BarnesHutTsne.java:457-470 | after `max(maxIter, 0)` steps the state is the `Trajectory` from the old state, with the existing tree or else one built from the positions at the first step; the final momentum and affinities are those of the schedule's end, and with no step nothing is built |
| Tsne.BarnesHutTsne.PrepareAffinities | deeplearning4j-core/src/main/java/org/deeplearning4j/plot/BarnesHutTsne.java:453-456 | sets N and returns `InputAffinities` or its error; on success `rows` holds the offsets i * k, `cols` the calibrated neighbour slots, and `vals` is a fresh array of 12 times the affinities |
| Tsne.BarnesHutTsne.Normalize | deeplearning4j-core/src/main/java/org/deeplearning4j/plot/BarnesHutTsne.java:453-456 | from the calibrated arrays, returns `InputAffinities` and leaves 12 times them in a fresh `vals` |
| Tsne.BarnesHutTsne.NormalizedSymmetric | deeplearning4j-core/src/main/java/org/deeplearning4j/plot/BarnesHutTsne.java:453-454 | the array method returns exactly `NormalizedAffinities` in a fresh array, or its error |
| Tsne.BarnesHutTsne.Started | deeplearning4j-core/src/main/java/org/deeplearning4j/plot/BarnesHutTsne.java:448-450 | an existing state is kept; otherwise the positions are the noise times 1e-3f, with unit gains and zero velocities, all of one length |
| Tsne.BarnesHutTsne.StartFromNoise | deeplearning4j-core/src/main/java/org/deeplearning4j/plot/BarnesHutTsne.java:448-450 | an existing Y is kept; otherwise Y is a fresh array holding the noise times 1e-3f, with the optimiser state `Started(noise)` |
| Tsne.BarnesHutTsne.PrepareAndDescend | deeplearning4j-core/src/main/java/org/deeplearning4j/plot/BarnesHutTsne.java:453-470 | an affinity error is returned with Y, gains, velocities (their contents included), momentum and tree untouched; otherwise `rows` and `cols` hold the calibrated offsets and neighbour slots, and the state is the `Trajectory` of the full schedule on those affinities over that matrix |
| Tsne.BarnesHutTsne.Fit | deeplearning4j-core/src/main/java/org/deeplearning4j/plot/BarnesHutTsne.java:439-472 | theta = 0 gives the exact embedding and touches nothing else, neither the contents of the velocities nor of an existing Y. Otherwise Y starts from the scaled noise unless it exists, and N is set. Then either the calibration or symmetrization error is returned, leaving the started state, the gains, velocities, momentum and tree as they were, or `rows` and `cols` hold the calibrated offsets and neighbour slots and the state is the `Trajectory` of the full schedule over that matrix from the started state |

## Left out

- The vantage-point tree search (`VPTree`, lines 181 and 191) is not part of this model. Its outcome for each point is the input `results` (point indices, self first). The input `distances` is the row of `VPTree.buildFromData(results)` (line 194) that `computeGaussianKernel` reads at positions 1..k. The distances the search itself reports are collected into a list that is thrown away (line 191), so they play no part.
- The force tree (`SpTree`, lines 684-692) is not part of this model: `computeEdgeForces`, `computeNonEdgeForces`, `sumQ` and the tree's build. The gradient is the parameter `forces`, applied to the positions the tree was built from, the current Y and the affinity matrix. The field `tree` keeps those positions, so the build-once caching is modelled but the tree's contents are not.
- `Tsne.calculate`, the exact fallback taken when `theta == 0` (line 445), is the input `exactY`.
- AdaGrad (`adaGrad.getGradient`, line 505) is a length-preserving function parameter. Its internal history and its lazy creation are not modelled.
- Tsne.BarnesHutTsne.Trajectory: with `useAdaGrad` set, every step applies the same stateless `adaGrad`. The Java `AdaGrad` object is created once (lines 503-504) and its history carries over steps and `fit()` calls, so the stated trajectory is the program's only when `useAdaGrad` is false or the AdaGrad step depends on the current gradient alone.
- Tsne.BarnesHutTsne.Descend: states its final state through `Trajectory`, with the same AdaGrad limitation.
- Tsne.BarnesHutTsne.PrepareAndDescend: states its final state through `Trajectory`, with the same AdaGrad limitation.
- Tsne.BarnesHutTsne.Fit: states its final state through `Trajectory`, with the same AdaGrad limitation.
- The random matrix of line 449 (`randn`) is the input `noise`.
- FastMath `exp` and `log` are function parameters. The only assumption is that `exp` is positive.
- Floating point is not modelled. Doubles are reals, so NaN, infinities and rounding do not arise. The float literal `1e-3f` is kept as its exact double value.
- Logging, the iteration listener, `score()`, `saveAsFile`, `plot` and the configuration getters, setters and builder are not part of this model.
- Configuration that the core does not read is left out: `realMin`, `normalize`, `usePca`, the similarity function and `invert`.
- Tsne.BarnesHutTsne.CalibratePoint: with k = 0, the kernel sum is 0 and the search computes with NaN. The model skips the search in that case; its outcome is discarded anyway.
- Tsne.BarnesHutTsne.Fit: after an error it states what was returned, Y's value, the gains, velocities, momentum and tree. In the Java code the error is an exception; `N` and the arrays `rows`, `cols` and `vals` written before it are not described further.
- Tsne.BarnesHutTsne.Update: it requires `gains` and `yIncs` to exist. In the Java code they exist because `gradient()` creates them; calling `update` first would throw a NullPointerException, which is not modelled.
- Symmetrize.Symmetrized requires a readable matrix (`Valid`), that is, in-range offsets and column indices. The calibration always produces one (`Tsne.CalibratedMatrixValid`). Out-of-range reads in pass 1 are therefore not modelled, while the index errors that pass 2 can raise on such a matrix are.
- Tsne.BarnesHutTsne.NormalizedSymmetric: the division by the total is skipped when the total is 0. Line 454 always divides, but a zero total occurs only for an empty matrix (`Tsne.ZeroTotalMeansEmpty`), where the division changes nothing.
- Perplexity.KernelEntropyIsExpectedEnergy is stated for any row q with q times the row sum equal to p. The normalised row `Normalize(p)` is one such row (its ensures).
- Integer widths are not modelled. `(int)(3 * u)` is the truncation toward zero of a value assumed to fit in an int, and array sizes `N * k` are unbounded.
