/**
 * The BarnesHutTsne object of BarnesHutTsne.java: its configuration, the state
 * `fit` builds (the point count N, the compressed-sparse-row affinities `rows`,
 * `cols` and `vals`, the embedding `Y`, the optimiser's `gains` and `yIncs`) and
 * the methods that change that state.
 *
 * The neighbour search (VPTree), the force tree (SpTree), AdaGrad, FastMath's
 * exp and log, the random start and the exact `Tsne` fallback are parameters.
 * For each point, `results` holds the indices of the k + 1 neighbours the search
 * returns (line 191), and `distances` holds the row of `VPTree.buildFromData(results)`
 * (line 194) that the kernel reads at positions 1 .. k. The distances the search
 * itself reports go into a list that is thrown away. The gradient is `forces` and
 * the random matrix is `noise`.
 */
module Tsne {
  import opened Common
  import opened Perplexity
  import opened Symmetrize
  import opened Optimizer

  /** The float literal 1e-3f that scales the random start (line 449), as a double. */
  const NoiseScale: real := 0.001000000047497451305389404296875

  /** Why `fit` stops: an error of the calibration, or an index error of `symmetrized`. */
  datatype FitError = CalibrationFailed(calibration: CalibrationError) | SymmetrizeFailed(symmetrize: SymError)

  /** The matrix the calibration writes for k neighbours per point: `rows`, `cols` and `vals`. */
  function CalibratedMatrix(results: seq<seq<int>>, distances: seq<seq<real>>, k: nat,
                            exp: real -> real, log: real -> real): (a: Csr)
    requires LongEnough(distances, k)
    requires forall x :: exp(x) > 0.0
  {
    Csr(RowOffsets(|distances|, k), CalibratedCols(results, k), CalibratedVals(distances, k, exp, log))
  }

  /** Search results naming points 0 .. n - 1 give a matrix `symmetrized` can read, with non-decreasing offsets. */
  lemma CalibratedMatrixValid(results: seq<seq<int>>, distances: seq<seq<real>>, k: nat,
                              exp: real -> real, log: real -> real)
    requires |results| == |distances| && LongEnough(distances, k)
    requires forall i, j :: 0 <= i < |results| && 0 <= j < |results[i]| ==> 0 <= results[i][j] < |results|
    requires forall x :: exp(x) > 0.0
    ensures var a := CalibratedMatrix(results, distances, k, exp, log);
            && Valid(a, |distances|)
            && (forall r :: 0 <= r < |distances| ==> a.rowP[r] <= a.rowP[r + 1])
            && |a.colP| == a.rowP[|distances|] - a.rowP[0]
  {
    var n := |distances|;
    RowOffsetsAreMultiples(n, k);
    if n > 0 {
      CalibratedColsBounded(results, k, n);
    }
  }

  /**
   * Lines 453-455: the symmetrized matrix divided by the sum of the values it was
   * built from. That sum is zero only when the matrix is empty, and the values are
   * then left as they are.
   */
  function NormalizedAffinities(a: Csr, n: nat): (r: Result<seq<real>, SymError>)
    requires Symmetrize.Valid(a, n)
    ensures r.Ok? <==> Symmetrized(a, n).Ok?
    ensures r.Err? ==> r.error == Symmetrized(a, n).error
    ensures r.Ok? ==> |r.value| == |Symmetrized(a, n).value|
    ensures r.Ok? && Sum(a.valP) != 0.0 ==>
              forall j :: 0 <= j < |r.value| ==> r.value[j] * Sum(a.valP) == Symmetrized(a, n).value[j]
  {
    match Symmetrized(a, n)
    case Err(e) => Err(e)
    case Ok(sym) =>
      var total := Sum(a.valP);
      if total == 0.0 then Ok(sym) else Ok(DivideAll(sym, total))
  }

  /**
   * The affinities `fit` optimises against (lines 453-454), or the error that stops
   * it: the calibrated matrix, symmetrized and normalised.
   */
  function InputAffinities(results: seq<seq<int>>, distances: seq<seq<real>>, u: real,
                           exp: real -> real, log: real -> real): (r: Result<seq<real>, FitError>)
    requires |results| == |distances|
    requires forall i, j :: 0 <= i < |results| && 0 <= j < |results[i]| ==> 0 <= results[i][j] < |results|
    requires forall x :: exp(x) > 0.0
    ensures r.Ok? ==> NeighbourCount(u).Ok? && LongEnough(distances, NeighbourCount(u).value)
  {
    match NeighbourCount(u)
    case Err(e) => Err(CalibrationFailed(e))
    case Ok(k) =>
      match FirstShortRow(distances, k)
      case Some(i) => Err(CalibrationFailed(TooFewDistances(i)))
      case None =>
        var a := CalibratedMatrix(results, distances, k, exp, log);
        CalibratedMatrixValid(results, distances, k, exp, log);
        match NormalizedAffinities(a, |distances|)
        case Err(e) => Err(SymmetrizeFailed(e))
        case Ok(q) => Ok(q)
  }

  /** The calibrated values sum to zero only when there are none, and then `symmetrized` returns none. */
  lemma ZeroTotalMeansEmpty(results: seq<seq<int>>, distances: seq<seq<real>>, k: nat,
                            exp: real -> real, log: real -> real)
    requires |results| == |distances| && LongEnough(distances, k)
    requires forall i, j :: 0 <= i < |results| && 0 <= j < |results[i]| ==> 0 <= results[i][j] < |results|
    requires forall x :: exp(x) > 0.0
    ensures var a := CalibratedMatrix(results, distances, k, exp, log);
            Valid(a, |distances|) && (Sum(a.valP) == 0.0 ==> |a.valP| == 0)
    ensures var a := CalibratedMatrix(results, distances, k, exp, log);
            Valid(a, |distances|) && |a.valP| == 0 && Symmetrized(a, |distances|).Ok? ==> |Symmetrized(a, |distances|).value| == 0
  {
    var n := |distances|;
    var a := CalibratedMatrix(results, distances, k, exp, log);
    CalibratedMatrixValid(results, distances, k, exp, log);
    if k > 0 {
      CalibratedValsSum(distances, k, exp, log);
    }
    StoredMonotone(a, n, n);
  }

  /** The affinities `fit` optimises against are never negative. */
  lemma InputAffinitiesNonNegative(results: seq<seq<int>>, distances: seq<seq<real>>, u: real,
                                   exp: real -> real, log: real -> real)
    requires |results| == |distances|
    requires forall i, j :: 0 <= i < |results| && 0 <= j < |results[i]| ==> 0 <= results[i][j] < |results|
    requires forall x :: exp(x) > 0.0
    ensures InputAffinities(results, distances, u, exp, log).Ok? ==> NonNegative(InputAffinities(results, distances, u, exp, log).value)
  {
    var r := InputAffinities(results, distances, u, exp, log);
    if r.Ok? {
      var k := NeighbourCount(u).value;
      var a := CalibratedMatrix(results, distances, k, exp, log);
      CalibratedMatrixValid(results, distances, k, exp, log);
      CalibratedValsPositive(distances, k, exp, log);
      SymmetrizedNonNegative(a, |distances|);
      var sym := Symmetrized(a, |distances|).value;
      var total := Sum(a.valP);
      if total != 0.0 {
        if k > 0 {
          CalibratedValsSum(distances, k, exp, log);
        }
        DivideAllNonNegative(sym, total);
      }
    }
  }

  /**
   * The force computation of the SpTree (lines 684-692): from the positions the tree
   * was built from, the current positions Y and the affinity matrix, the gradient.
   */
  type Forces = (seq<real>, seq<real>, seq<int>, seq<int>, seq<real>) -> seq<real>

  /** The gradient has the shape of Y. */
  ghost predicate ForcesKeepShape(forces: Forces)
  {
    forall built, y, r, c, v :: |forces(built, y, r, c, v)| == |y|
  }

  /** The positions the force tree is built from: those of its first build, or y when it is built now. */
  function BuiltFrom(tree: Option<seq<real>>, y: seq<real>): seq<real>
  {
    if tree.Some? then tree.value else y
  }

  /** Number of steps `fit` takes: `maxIter`, or none when it is negative. */
  function Iterations(maxIter: int): nat
  {
    if maxIter < 0 then 0 else maxIter
  }

  class BarnesHutTsne {
    const maxIter: int
    const initialMomentum: real
    const finalMomentum: real
    const minGain: real
    const switchMomentumIteration: int
    const stopLyingIteration: int
    const tolerance: real
    const learningRate: real
    const useAdaGrad: bool
    const perplexity: real
    const theta: real
    const numDimensions: nat

    var momentum: real
    var Y: array?<real>
    var N: int
    var rows: array?<int>
    var cols: array?<int>
    var vals: array?<real>
    var gains: array?<real>
    var yIncs: array?<real>
    /** The force tree of lines 684-685, as the positions it was built from; it is built once. */
    var tree: Option<seq<real>>

    /** The optimiser's arrays, once created, have the shape of Y and are distinct from it and from each other. */
    ghost predicate Valid()
      reads this`Y, this`gains, this`yIncs
    {
      && (yIncs != null ==> Y != null && yIncs.Length == Y.Length && yIncs != Y)
      && (gains != null ==> Y != null && gains.Length == Y.Length && gains != Y && gains != yIncs)
    }

    /** The configuring constructor of lines 97-120; nothing is computed yet. */
    constructor (numDimensions: nat, theta: real, maxIter: int, initialMomentum: real, finalMomentum: real,
                 momentum: real, switchMomentumIteration: int, stopLyingIteration: int, tolerance: real,
                 learningRate: real, useAdaGrad: bool, perplexity: real, minGain: real)
      ensures this.numDimensions == numDimensions && this.theta == theta && this.maxIter == maxIter
      ensures this.initialMomentum == initialMomentum && this.finalMomentum == finalMomentum
      ensures this.momentum == momentum && this.switchMomentumIteration == switchMomentumIteration
      ensures this.stopLyingIteration == stopLyingIteration && this.tolerance == tolerance
      ensures this.learningRate == learningRate && this.useAdaGrad == useAdaGrad
      ensures this.perplexity == perplexity && this.minGain == minGain
      ensures Y == null && rows == null && cols == null && vals == null && gains == null && yIncs == null && tree == None
      ensures Valid()
    {
      this.maxIter := maxIter;
      this.initialMomentum := initialMomentum;
      this.finalMomentum := finalMomentum;
      this.momentum := momentum;
      this.useAdaGrad := useAdaGrad;
      this.stopLyingIteration := stopLyingIteration;
      this.learningRate := learningRate;
      this.switchMomentumIteration := switchMomentumIteration;
      this.tolerance := tolerance;
      this.perplexity := perplexity;
      this.minGain := minGain;
      this.numDimensions := numDimensions;
      this.theta := theta;
      Y, N, rows, cols, vals, gains, yIncs, tree := null, 0, null, null, null, null, null, None;
    }

    /**
     * `computeGaussianPerplexity` (lines 162-246). N is set first; then either the
     * perplexity check fails, or `rows`, `cols` and `vals` are fresh arrays holding
     * the offsets i * k, the neighbour slots and the normalised kernel rows, or a
     * point's distance row is too short to read. For k > 0 the bracketing search
     * runs for every point, and its outcome is dropped.
     */
    method ComputeGaussianPerplexity(results: seq<seq<int>>, distances: seq<seq<real>>, u: real,
                                     exp: real -> real, log: real -> real)
      returns (r: Result<array<real>, CalibrationError>)
      requires |results| == |distances|
      requires forall x :: exp(x) > 0.0
      modifies this`N, this`rows, this`cols, this`vals
      ensures N == |distances|
      ensures r.Ok? <==> NeighbourCount(u).Ok? && LongEnough(distances, NeighbourCount(u).value)
      ensures NeighbourCount(u).Err? ==> r == Err(NeighbourCount(u).error)
      ensures NeighbourCount(u).Err? ==> rows == old(rows) && cols == old(cols) && vals == old(vals)
      ensures NeighbourCount(u).Ok? && !LongEnough(distances, NeighbourCount(u).value) ==>
                r == Err(TooFewDistances(FirstShortRow(distances, NeighbourCount(u).value).value))
      ensures r.Ok? ==>
                && rows != null && cols != null && vals != null
                && fresh(rows) && fresh(cols) && fresh(vals) && r.value == vals
                && rows[..] == RowOffsets(N, NeighbourCount(u).value)
                && cols[..] == CalibratedCols(results, NeighbourCount(u).value)
                && vals[..] == CalibratedVals(distances, NeighbourCount(u).value, exp, log)
    {
      N := |distances|;
      var n := |distances|;
      var count := NeighbourCount(u);
      if count.Err? {
        return Err(count.error);
      }
      var k := count.value;
      var rs, cs, vs, short := CalibrateAll(results, distances, k, exp, log, log(u));
      rows, cols, vals := rs, cs, vs;
      if short.Some? {
        return Err(TooFewDistances(short.value));
      }
      return Ok(vs);
    }

    /**
     * Lines 168-240: the three arrays are allocated, the offsets written, and the
     * loop over the points stops at the first point whose distance row is too
     * short, or otherwise leaves every point's row in `cs` and `vs`.
     */
    method CalibrateAll(results: seq<seq<int>>, distances: seq<seq<real>>, k: nat,
                        exp: real -> real, log: real -> real, logU: real)
      returns (rs: array<int>, cs: array<int>, vs: array<real>, short: Option<nat>)
      requires |results| == |distances|
      requires forall x :: exp(x) > 0.0
      ensures fresh(rs) && fresh(cs) && fresh(vs)
      ensures rs[..] == RowOffsets(|distances|, k)
      ensures short == FirstShortRow(distances, k)
      ensures short.None? ==> cs[..] == CalibratedCols(results, k)
      ensures short.None? ==> vs[..] == CalibratedVals(distances, k, exp, log)
    {
      var n := |distances|;
      rs := RowOffsetsArray(n, k);
      cs := new int[n * k];
      vs := new real[n * k];
      RowOffsetsAreMultiples(n, k);
      short := CalibrateRows(results, distances, k, exp, log, logU, rs, cs, vs);
    }

    /** The loop of lines 184-240 over the points, writing into the allocated arrays. */
    method CalibrateRows(results: seq<seq<int>>, distances: seq<seq<real>>, k: nat,
                         exp: real -> real, log: real -> real, logU: real,
                         rs: array<int>, cs: array<int>, vs: array<real>)
      returns (short: Option<nat>)
      requires |results| == |distances|
      requires forall x :: exp(x) > 0.0
      requires rs[..] == RowOffsets(|distances|, k) && rs != cs
      requires cs.Length == vs.Length == |distances| * k
      requires forall j :: 0 <= j <= |distances| ==> RowOffsets(|distances|, k)[j] == j * k
      modifies cs, vs
      ensures short == FirstShortRow(distances, k)
      ensures short.None? ==> cs[..] == CalibratedCols(results, k)
      ensures short.None? ==> vs[..] == CalibratedVals(distances, k, exp, log)
    {
      var n := |distances|;
      var i := 0;
      while i < n
        invariant 0 <= i <= n
        invariant LongEnough(distances[..i], k)
        invariant CalibratedCols(results[..i], k) <= cs[..]
        invariant CalibratedVals(distances[..i], k, exp, log) <= vs[..]
      {
        var ok := CalibratePoint(results, distances, k, exp, log, logU, i, rs, cs, vs);
        if !ok {
          FirstShortRowAt(distances, k, i);
          return Some(i);
        }
        i := i + 1;
      }
      assert results[..n] == results && distances[..n] == distances;
      return None;
    }

    /**
     * The body of the loop of lines 184-240 for point i: a distance row too short
     * for the kernel stops it (`ok` false, nothing written); otherwise the search
     * runs when k > 0, and the point's row extends what `cols` and `vals` hold.
     */
    method CalibratePoint(results: seq<seq<int>>, distances: seq<seq<real>>, k: nat,
                          exp: real -> real, log: real -> real, logU: real, i: nat,
                          rs: array<int>, cs: array<int>, vs: array<real>)
      returns (ok: bool)
      requires i < |results| == |distances|
      requires forall x :: exp(x) > 0.0
      requires LongEnough(distances[..i], k)
      requires rs[..] == RowOffsets(|distances|, k) && rs != cs
      requires cs.Length == vs.Length == |distances| * k
      requires forall j :: 0 <= j <= |distances| ==> RowOffsets(|distances|, k)[j] == j * k
      requires CalibratedCols(results[..i], k) <= cs[..]
      requires CalibratedVals(distances[..i], k, exp, log) <= vs[..]
      modifies cs, vs
      ensures ok <==> k == 0 || k < |distances[i]|
      ensures ok ==> LongEnough(distances[..i + 1], k)
      ensures ok ==> CalibratedCols(results[..i + 1], k) <= cs[..]
      ensures ok ==> CalibratedVals(distances[..i + 1], k, exp, log) <= vs[..]
    {
      if 0 < k && |distances[i]| <= k {
        return false;
      }
      if 0 < k {
        // The search of lines 201-225 runs, but nothing it finds is used: the row
        // stored below is the kernel at beta = 1 (line 195), as in the Java code.
        var betas, hDiff, tries, found, trail := SearchBeta(EntropyOf(distances[i], k, exp, log), logU, tolerance);
      }
      var row := CalibratedRow(distances[i], k, exp, log);
      var indices := NeighbourIndices(results[i], k);
      StorePoint(results, distances, k, exp, log, i, rs, cs, vs, indices, row);
      return true;
    }

    /** Lines 236-239 for point i: its row extends what `cols` and `vals` already hold. */
    static method StorePoint(results: seq<seq<int>>, distances: seq<seq<real>>, k: nat,
                                 exp: real -> real, log: real -> real, i: nat,
                                 rs: array<int>, cs: array<int>, vs: array<real>,
                                 indices: array<int>, row: seq<real>)
      requires i < |results| == |distances|
      requires forall x :: exp(x) > 0.0
      requires LongEnough(distances[..i], k) && (k == 0 || k < |distances[i]|)
      requires rs[..] == RowOffsets(|distances|, k) && rs != cs && cs != indices
      requires cs.Length == vs.Length == |distances| * k
      requires forall j :: 0 <= j <= |distances| ==> RowOffsets(|distances|, k)[j] == j * k
      requires indices.Length == k + 1 && indices[1..] == NeighbourRow(results[i], k)
      requires row == CalibratedRow(distances[i], k, exp, log)
      requires CalibratedCols(results[..i], k) <= cs[..]
      requires CalibratedVals(distances[..i], k, exp, log) <= vs[..]
      modifies cs, vs
      ensures LongEnough(distances[..i + 1], k)
      ensures CalibratedCols(results[..i + 1], k) <= cs[..]
      ensures CalibratedVals(distances[..i + 1], k, exp, log) <= vs[..]
    {
      MulSucc(i, k);
      MulMonotone(i + 1, |distances|, k);
      var base := rs[i];
      ghost var cols0 := cs[..];
      ghost var vals0 := vs[..];
      StoreRow(cs, vs, base, indices, row);
      StoredColsExtend(results, k, i, cols0, cs[..]);
      StoredValsExtend(distances, k, exp, log, i, vals0, vs[..]);
    }

    /** The optimiser state: Y, with gains of 1 and zero velocities until `gradient()` creates them. */
    ghost function State(): (s: OptState)
      reads this`Y, this`gains, this`yIncs, Y, gains, yIncs
      requires Valid() && Y != null
      ensures |s.y| == |s.gains| == |s.incs| == Y.Length
    {
      OptState(Y[..], if gains == null then Constant(Y.Length, 1.0) else gains[..],
               if yIncs == null then Constant(Y.Length, 0.0) else yIncs[..])
    }

    /** The state the descent of `fit` starts from: the current one, or the scaled noise when there is no Y yet. */
    ghost function Started(noise: seq<real>): (s: OptState)
      reads this`Y, this`gains, this`yIncs, Y, gains, yIncs
      requires Valid()
      ensures |s.y| == |s.gains| == |s.incs|
      ensures Y != null ==> s == State()
      ensures Y == null ==> && s.y == ScaleAll(noise, NoiseScale)
                            && forall j :: 0 <= j < |noise| ==> s.gains[j] == 1.0 && s.incs[j] == 0.0
    {
      if Y == null then OptState(ScaleAll(noise, NoiseScale), Constant(|noise|, 1.0), Constant(|noise|, 0.0))
      else State()
    }

    /**
     * The optimiser state after i steps from `start` (lines 457-470): step t updates
     * with the gradient of the tree built from `built` at the current positions, under
     * the momentum `MomentumAt(m0, ..., t)` and the affinities
     * `Exaggerated(p, stopLyingIteration, t)` of the schedule. After the first step
     * every gain is at least `minGain`.
     */
    ghost function Trajectory(start: OptState, built: seq<real>, p: seq<real>, rowP: seq<int>, colP: seq<int>,
                              m0: real, forces: Forces, adaGrad: seq<real> -> seq<real>, i: nat): (s: OptState)
      requires |start.y| == |start.gains| == |start.incs|
      requires ForcesKeepShape(forces) && forall g :: |adaGrad(g)| == |g|
      ensures |s.y| == |s.gains| == |s.incs| == |start.y|
      ensures 0 < i ==> forall j :: 0 <= j < |s.gains| ==> minGain <= s.gains[j]
    {
      if i == 0 then start
      else
        var prev := Trajectory(start, built, p, rowP, colP, m0, forces, adaGrad, i - 1);
        UpdateState(prev, forces(built, prev.y, rowP, colP, Exaggerated(p, stopLyingIteration, i - 1)),
                    MomentumAt(m0, finalMomentum, switchMomentumIteration, i - 1),
                    minGain, learningRate, useAdaGrad, adaGrad)
    }

    /**
     * `gradient()` (lines 674-697): `yIncs` (zeros) and `gains` (ones) are created
     * on first use with the shape of Y, and so is the force tree (lines 684-685),
     * built from the positions Y has then. The gradient comes from that tree and the
     * current Y: the parameter `forces` applied to both and to the affinity matrix.
     */
    method Gradient(forces: Forces) returns (dC: seq<real>)
      requires Valid() && Y != null && rows != null && cols != null && vals != null
      modifies this`gains, this`yIncs, this`tree
      ensures Valid() && gains != null && yIncs != null
      ensures old(yIncs) == null ==> fresh(yIncs) && yIncs[..] == Constant(Y.Length, 0.0)
      ensures old(yIncs) != null ==> yIncs == old(yIncs)
      ensures old(gains) == null ==> fresh(gains) && gains[..] == Constant(Y.Length, 1.0)
      ensures old(gains) != null ==> gains == old(gains)
      ensures tree == Some(BuiltFrom(old(tree), Y[..]))
      ensures dC == forces(tree.value, Y[..], rows[..], cols[..], vals[..])
    {
      if yIncs == null {
        yIncs := new real[Y.Length](j => 0.0);
      }
      if gains == null {
        gains := new real[Y.Length](j => 1.0);
      }
      if tree.None? {
        tree := Some(Y[..]);
      }
      dC := forces(tree.value, Y[..], rows[..], cols[..], vals[..]);
    }

    /**
     * `update(INDArray, String)` (lines 491-515): a fresh `gains` array of mask sums
     * clamped at `minGain`, then `yIncs` and Y updated in place.
     */
    method Update(gradient: seq<real>, adaGrad: seq<real> -> seq<real>)
      requires Valid() && Y != null && gains != null && yIncs != null
      requires |gradient| == Y.Length
      requires forall g :: |adaGrad(g)| == |g|
      modifies this`gains, Y, yIncs
      ensures Valid() && gains != null && fresh(gains) && yIncs == old(yIncs)
      ensures gains[..] == NextGains(old(gains[..]), gradient, old(yIncs[..]), minGain)
      ensures yIncs[..] == NextIncs(old(yIncs[..]), momentum, GradChange(gains[..], gradient, learningRate, useAdaGrad, adaGrad))
      ensures Y[..] == Advance(old(Y[..]), yIncs[..])
    {
      var next := NextGainsArray(gains, yIncs, gradient, minGain);
      gains := next;
      var gradChange := Products(gains[..], gradient);
      if useAdaGrad {
        gradChange := adaGrad(gradChange);
      } else {
        gradChange := ScaleAll(gradChange, learningRate);
      }
      assert gradChange == GradChange(gains[..], gradient, learningRate, useAdaGrad, adaGrad);
      StepVelocity(yIncs, momentum, gradChange);
      AdvancePositions(Y, yIncs);
    }

    /**
     * `step(p, i)` (lines 485-487): one `update` with the gradient of `gradient()`,
     * from the state before the step (ones and zeros for gains and velocities on
     * the first step).
     */
    method Step(forces: Forces, adaGrad: seq<real> -> seq<real>)
      requires Valid() && Y != null && rows != null && cols != null && vals != null
      requires vals != Y && vals != yIncs
      requires ForcesKeepShape(forces)
      requires forall g :: |adaGrad(g)| == |g|
      modifies this`gains, this`yIncs, this`tree, Y, yIncs
      ensures Valid() && gains != null && yIncs != null && fresh(gains)
      ensures old(yIncs) == null ==> fresh(yIncs)
      ensures old(yIncs) != null ==> yIncs == old(yIncs)
      ensures tree == Some(BuiltFrom(old(tree), old(Y[..])))
      ensures State() == UpdateState(old(State()), forces(tree.value, old(Y[..]), rows[..], cols[..], vals[..]),
                                     momentum, minGain, learningRate, useAdaGrad, adaGrad)
    {
      ghost var s0 := State();
      ghost var affinities := vals[..];
      var dC := Gradient(forces);
      assert OptState(Y[..], gains[..], yIncs[..]) == s0;
      Update(dC, adaGrad);
      assert vals[..] == affinities;
    }

    /**
     * The iterations of lines 457-470: step i runs from the state the previous steps
     * left, with the momentum and the affinities of step i of the schedule; the
     * momentum switches after step `switchMomentumIteration` and the x12 is divided
     * out after step `stopLyingIteration`. The force tree is built on the first step
     * and kept. `start`, `built` and `m0` name the optimiser state, the positions the
     * force tree is (or will be) built from, and the momentum at the call.
     */
    method Descend(ghost p: seq<real>, ghost start: OptState, ghost built: seq<real>, ghost m0: real,
                   forces: Forces, adaGrad: seq<real> -> seq<real>)
      requires Valid() && Y != null && rows != null && cols != null && vals != null
      requires start == State() && built == BuiltFrom(tree, Y[..]) && m0 == momentum
      requires vals != Y && vals != yIncs && vals != gains
      requires vals[..] == Exaggerated(p, stopLyingIteration, 0)
      requires ForcesKeepShape(forces)
      requires forall g :: |adaGrad(g)| == |g|
      modifies this`momentum, this`gains, this`yIncs, this`tree, Y, yIncs, vals
      ensures Valid() && rows[..] == old(rows[..]) && cols[..] == old(cols[..])
      ensures State() == Trajectory(start, built, p, rows[..], cols[..], m0, forces, adaGrad, Iterations(maxIter))
      ensures tree == if Iterations(maxIter) == 0 then old(tree) else Some(built)
      ensures vals[..] == Exaggerated(p, stopLyingIteration, Iterations(maxIter))
      ensures momentum == MomentumAt(m0, finalMomentum, switchMomentumIteration, Iterations(maxIter))
    {
      ghost var rowP, colP := rows[..], cols[..];
      ghost var s := start;
      var i := 0;
      while i < maxIter
        invariant 0 <= i <= Iterations(maxIter)
        invariant Ready() && rows[..] == rowP && cols[..] == colP
        invariant yIncs == old(yIncs) || fresh(yIncs)
        invariant tree == (if i == 0 then old(tree) else Some(built)) && BuiltFrom(tree, Y[..]) == built
        invariant s == State() && s == Trajectory(start, built, p, rowP, colP, m0, forces, adaGrad, i)
        invariant vals[..] == Exaggerated(p, stopLyingIteration, i)
        invariant momentum == MomentumAt(m0, finalMomentum, switchMomentumIteration, i)
      {
        IterateFrom(p, i, s, built, rowP, colP, m0, forces, adaGrad);
        s := UpdateState(s, forces(built, s.y, rowP, colP, Exaggerated(p, stopLyingIteration, i)),
                         MomentumAt(m0, finalMomentum, switchMomentumIteration, i), minGain, learningRate, useAdaGrad, adaGrad);
        i := i + 1;
      }
      assert i == Iterations(maxIter);
    }

    /** The arrays the descent works on exist, and the affinities are none of the others. */
    ghost predicate Ready()
      reads this`Y, this`gains, this`yIncs, this`rows, this`cols, this`vals
    {
      Valid() && Y != null && rows != null && cols != null && vals != null
      && vals != Y && vals != yIncs && vals != gains
    }

    /**
     * Step i of the descent from the state s it has reached, with the force tree
     * built from `built`: the next state, affinities and momentum of the schedule.
     */
    method IterateFrom(ghost p: seq<real>, i: nat, ghost s: OptState, ghost built: seq<real>,
                       ghost rowP: seq<int>, ghost colP: seq<int>, ghost m0: real,
                       forces: Forces, adaGrad: seq<real> -> seq<real>)
      requires Ready() && ForcesKeepShape(forces) && forall g :: |adaGrad(g)| == |g|
      requires State() == s && BuiltFrom(tree, Y[..]) == built && rows[..] == rowP && cols[..] == colP
      requires vals[..] == Exaggerated(p, stopLyingIteration, i)
      requires momentum == MomentumAt(m0, finalMomentum, switchMomentumIteration, i)
      modifies this`momentum, this`gains, this`yIncs, this`tree, Y, yIncs, vals
      ensures Ready() && (yIncs == old(yIncs) || fresh(yIncs)) && tree == Some(built)
      ensures rows[..] == rowP && cols[..] == colP
      ensures State() == UpdateState(s, forces(built, s.y, rowP, colP, Exaggerated(p, stopLyingIteration, i)),
                                     MomentumAt(m0, finalMomentum, switchMomentumIteration, i),
                                     minGain, learningRate, useAdaGrad, adaGrad)
      ensures vals[..] == Exaggerated(p, stopLyingIteration, i + 1)
      ensures momentum == MomentumAt(m0, finalMomentum, switchMomentumIteration, i + 1)
    {
      Iterate(p, i, forces, adaGrad);
    }

    /**
     * One pass of the loop of lines 457-470: a step, then the momentum switch after
     * step `switchMomentumIteration` and the division by 12 after step
     * `stopLyingIteration`.
     */
    method Iterate(ghost p: seq<real>, i: nat, forces: Forces, adaGrad: seq<real> -> seq<real>)
      requires Valid() && Y != null && rows != null && cols != null && vals != null
      requires vals != Y && vals != yIncs && vals != gains
      requires vals[..] == Exaggerated(p, stopLyingIteration, i)
      requires ForcesKeepShape(forces)
      requires forall g :: |adaGrad(g)| == |g|
      modifies this`momentum, this`gains, this`yIncs, this`tree, Y, yIncs, vals
      ensures Valid() && vals != Y && vals != yIncs && vals != gains
      ensures yIncs == old(yIncs) || fresh(yIncs)
      ensures tree == Some(BuiltFrom(old(tree), old(Y[..])))
      ensures State() == UpdateState(old(State()),
                                     forces(tree.value, old(Y[..]), rows[..], cols[..], Exaggerated(p, stopLyingIteration, i)),
                                     old(momentum), minGain, learningRate, useAdaGrad, adaGrad)
      ensures vals[..] == Exaggerated(p, stopLyingIteration, i + 1)
      ensures momentum == (if i == switchMomentumIteration then finalMomentum else old(momentum))
    {
      Step(forces, adaGrad);
      if i == switchMomentumIteration {
        momentum := finalMomentum;
      }
      if i == stopLyingIteration {
        DivideInPlace(vals, 12.0);
        ScaleThenDivide(p, 12.0);
      }
    }

    /**
     * Lines 453-456 of `fit()`: calibrate, symmetrize, divide by the sum of the
     * calibrated values and multiply by 12. On success `vals` is a fresh array
     * holding the input affinities times 12.
     */
    method PrepareAffinities(results: seq<seq<int>>, distances: seq<seq<real>>,
                             exp: real -> real, log: real -> real)
      returns (r: Result<seq<real>, FitError>)
      requires |results| == |distances|
      requires forall i, j :: 0 <= i < |results| && 0 <= j < |results[i]| ==> 0 <= results[i][j] < |results|
      requires forall x :: exp(x) > 0.0
      modifies this`N, this`rows, this`cols, this`vals
      ensures N == |results|
      ensures r == InputAffinities(results, distances, perplexity, exp, log)
      ensures r.Ok? ==> && rows != null && cols != null && vals != null && fresh(vals)
                        && rows[..] == RowOffsets(|results|, NeighbourCount(perplexity).value)
                        && cols[..] == CalibratedCols(results, NeighbourCount(perplexity).value)
                        && vals[..] == Exaggerated(r.value, stopLyingIteration, 0)
    {
      var calibrated := ComputeGaussianPerplexity(results, distances, perplexity, exp, log);
      if calibrated.Err? {
        return Err(CalibrationFailed(calibrated.error));
      }
      r := Normalize(results, distances, exp, log);
    }

    /**
     * Lines 453-456 of `fit()` once the calibration has succeeded: the symmetrized
     * affinities, divided by their total, become the x12 `vals`.
     */
    method Normalize(results: seq<seq<int>>, distances: seq<seq<real>>, exp: real -> real, log: real -> real)
      returns (r: Result<seq<real>, FitError>)
      requires |results| == |distances| == N
      requires forall i, j :: 0 <= i < |results| && 0 <= j < |results[i]| ==> 0 <= results[i][j] < |results|
      requires forall x :: exp(x) > 0.0
      requires NeighbourCount(perplexity).Ok? && LongEnough(distances, NeighbourCount(perplexity).value)
      requires rows != null && cols != null && vals != null
      requires var a := CalibratedMatrix(results, distances, NeighbourCount(perplexity).value, exp, log);
               rows[..] == a.rowP && cols[..] == a.colP && vals[..] == a.valP
      modifies this`vals
      ensures r == InputAffinities(results, distances, perplexity, exp, log)
      ensures r.Ok? ==> vals != null && fresh(vals) && vals[..] == Exaggerated(r.value, stopLyingIteration, 0)
    {
      ghost var k := NeighbourCount(perplexity).value;
      ghost var a := CalibratedMatrix(results, distances, k, exp, log);
      CalibratedMatrixValid(results, distances, k, exp, log);
      var normalized := NormalizedSymmetric(rows, cols, vals, a, N);
      if normalized.Err? {
        return Err(SymmetrizeFailed(normalized.error));
      }
      var q := normalized.value[..];
      r := Ok(q);
      vals := normalized.value;
      ScaleInPlace(vals, 12.0);
    }

    /** Lines 453-455 of `fit()` on the arrays: the values of `NormalizedAffinities` in a fresh array. */
    static method NormalizedSymmetric(rowP: array<int>, colP: array<int>, valP: array<real>, ghost a: Csr, n: nat)
      returns (r: Result<array<real>, SymError>)
      requires Symmetrize.Valid(a, n) && rowP[..] == a.rowP && colP[..] == a.colP && valP[..] == a.valP
      ensures match NormalizedAffinities(a, n)
              case Err(e) => r == Err(e)
              case Ok(q) => r.Ok? && fresh(r.value) && r.value[..] == q
    {
      var symmetric := SymmetrizedValues(rowP, colP, valP, a, n);
      if symmetric.Err? {
        return Err(symmetric.error);
      }
      var sym := symmetric.value;
      var total := Sum(valP[..]);
      if total != 0.0 {
        DivideInPlace(sym, total);
      }
      return Ok(sym);
    }

    /**
     * Lines 453-470 of `fit()` once `Y` exists: the input affinities are computed and,
     * when they exist, the descent runs on them; otherwise nothing of the optimiser's
     * state changes.
     */
    method PrepareAndDescend(results: seq<seq<int>>, distances: seq<seq<real>>,
                             exp: real -> real, log: real -> real,
                             forces: Forces, adaGrad: seq<real> -> seq<real>)
      returns (failure: Option<FitError>)
      requires Valid() && Y != null
      requires |results| == |distances|
      requires forall i, j :: 0 <= i < |results| && 0 <= j < |results[i]| ==> 0 <= results[i][j] < |results|
      requires forall x :: exp(x) > 0.0
      requires ForcesKeepShape(forces)
      requires forall g :: |adaGrad(g)| == |g|
      modifies this`N, this`rows, this`cols, this`vals, this`momentum, this`gains, this`yIncs, this`tree, Y, yIncs
      ensures Valid() && Y == old(Y) && N == |results|
      ensures failure.Some? ==> Y[..] == old(Y[..]) && momentum == old(momentum) && tree == old(tree)
      ensures failure.Some? ==> gains == old(gains) && yIncs == old(yIncs) && State() == old(State())
      ensures match InputAffinities(results, distances, perplexity, exp, log)
              case Err(e) => failure == Some(e)
              case Ok(p) =>
                && failure == None && rows != null && cols != null && vals != null
                && rows[..] == RowOffsets(|results|, NeighbourCount(perplexity).value)
                && cols[..] == CalibratedCols(results, NeighbourCount(perplexity).value)
                && State() == Trajectory(old(State()), BuiltFrom(old(tree), old(Y[..])), p, rows[..], cols[..],
                                         old(momentum), forces, adaGrad, Iterations(maxIter))
                && vals[..] == Exaggerated(p, stopLyingIteration, Iterations(maxIter))
                && momentum == MomentumAt(old(momentum), finalMomentum, switchMomentumIteration, Iterations(maxIter))
    {
      ghost var start, built := State(), BuiltFrom(tree, Y[..]);
      var prepared := PrepareAffinities(results, distances, exp, log);
      if prepared.Err? {
        return Some(prepared.error);
      }
      failure := None;
      Descend(prepared.value, start, built, old(momentum), forces, adaGrad);
    }

    /**
     * Line 449 of `fit()`: without a previous embedding, `Y` starts from the
     * random matrix `noise` scaled by `NoiseScale`; an existing `Y` is kept.
     */
    method StartFromNoise(noise: seq<real>)
      requires Valid()
      modifies this`Y
      ensures Valid() && Y != null
      ensures old(Y) != null ==> Y == old(Y)
      ensures old(Y) == null ==> fresh(Y) && Y[..] == ScaleAll(noise, NoiseScale)
      ensures State() == old(Started(noise))
    {
      if Y == null {
        var y := new real[|noise|](j requires 0 <= j < |noise| => noise[j]);
        assert y[..] == noise;
        ScaleInPlace(y, NoiseScale);
        Y := y;
      }
    }

    /**
     * `fit()` (lines 439-472). With theta = 0 the exact embedding `exactY` replaces Y
     * and nothing else changes. Otherwise Y starts from the scaled noise unless it
     * exists, the affinities are prepared (or their error returned, leaving the
     * optimiser's state as it was), and the descent runs the whole schedule from
     * that start.
     */
    method Fit(results: seq<seq<int>>, distances: seq<seq<real>>, noise: seq<real>, exactY: seq<real>,
               exp: real -> real, log: real -> real, forces: Forces, adaGrad: seq<real> -> seq<real>)
      returns (failure: Option<FitError>)
      requires Valid()
      requires |results| == |distances| && |noise| == |results| * numDimensions
      requires forall i, j :: 0 <= i < |results| && 0 <= j < |results[i]| ==> 0 <= results[i][j] < |results|
      requires forall x :: exp(x) > 0.0
      requires ForcesKeepShape(forces)
      requires forall g :: |adaGrad(g)| == |g|
      modifies this`Y, this`N, this`rows, this`cols, this`vals, this`momentum, this`gains, this`yIncs, this`tree, Y, yIncs
      ensures theta == 0.0 ==> failure == None && Y != null && fresh(Y) && Y[..] == exactY
      ensures theta == 0.0 ==> N == old(N) && rows == old(rows) && cols == old(cols) && vals == old(vals)
      ensures theta == 0.0 ==> momentum == old(momentum) && gains == old(gains) && yIncs == old(yIncs) && tree == old(tree)
      ensures theta == 0.0 && yIncs != null ==> yIncs[..] == old(yIncs[..])
      ensures theta == 0.0 && old(Y) != null ==> old(Y)[..] == old(Y[..])
      ensures theta != 0.0 ==> Valid() && Y != null && N == |results|
      ensures theta != 0.0 && old(Y) != null ==> Y == old(Y)
      ensures theta != 0.0 && old(Y) != null && failure.Some? ==> Y[..] == old(Y[..])
      ensures theta != 0.0 && old(Y) == null ==> fresh(Y) && (failure.Some? ==> Y[..] == ScaleAll(noise, NoiseScale))
      ensures theta != 0.0 && failure.Some? ==> momentum == old(momentum) && tree == old(tree)
      ensures theta != 0.0 && failure.Some? ==> gains == old(gains) && yIncs == old(yIncs) && State() == old(Started(noise))
      ensures theta != 0.0 ==>
                match InputAffinities(results, distances, perplexity, exp, log)
                case Err(e) => failure == Some(e)
                case Ok(p) =>
                  && failure == None && rows != null && cols != null && vals != null
                  && rows[..] == RowOffsets(|results|, NeighbourCount(perplexity).value)
                  && cols[..] == CalibratedCols(results, NeighbourCount(perplexity).value)
                  && State() == Trajectory(old(Started(noise)), BuiltFrom(old(tree), old(Started(noise)).y), p,
                                           rows[..], cols[..], old(momentum), forces, adaGrad, Iterations(maxIter))
                  && vals[..] == Exaggerated(p, stopLyingIteration, Iterations(maxIter))
                  && momentum == MomentumAt(old(momentum), finalMomentum, switchMomentumIteration, Iterations(maxIter))
    {
      if theta == 0.0 {
        Y := new real[|exactY|](j requires 0 <= j < |exactY| => exactY[j]);
        return None;
      }
      StartFromNoise(noise);
      failure := PrepareAndDescend(results, distances, exp, log, forces, adaGrad);
    }
  }
}
