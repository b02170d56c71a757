/**
 * Calibration of the input affinities (`computeGaussianPerplexity` and
 * `computeGaussianKernel` of BarnesHutTsne.java): the neighbour count derived from
 * the perplexity, the Gaussian kernel row of one point, the bracketing search for
 * the kernel precision `beta`, and the compressed-sparse-row layout the
 * calibration writes.
 *
 * `exp` and `log` (FastMath) are parameters of the model; the only fact assumed
 * about them, where one is needed, is that `exp` is positive.
 */
module Perplexity {
  import opened Common

  /** Double.MAX_VALUE, the sentinel the search uses for a bound that is not set yet. */
  const MaxDouble: real := 179769313486231570814527423731704356798070567525844996598917476803157260780028538760589558632766878171540458953514382464234321326889464182768467546703537516986049910576551282076245490090389328944075868508455133942304583236903222948165808559332123348274797826204144723168738177180919299881250404026184124858368.0

  /** The number of refinements the search may make for one point. */
  const MaxTries: nat := 200

  /** Java's `(int)` cast of a double inside the int range: truncation toward zero. */
  function Trunc(x: real): (r: int)
    ensures 0.0 <= x ==> r as real <= x < r as real + 1.0
    ensures x < 0.0 ==> r as real - 1.0 < x <= r as real
  {
    if x >= 0.0 then x.Floor else -((-x).Floor)
  }

  /**
   * Why the calibration stops: the IllegalStateException of line 167 when the
   * perplexity exceeds the neighbour count, or a point whose distance row is too
   * short for the k + 1 reads of the kernel (an index error in the Java code).
   */
  datatype CalibrationError = IllegalK(k: int, perplexity: real) | TooFewDistances(point: nat)

  /** The neighbour count `k = (int) (3 * u)`, or the exception raised when `u > k`. */
  function NeighbourCount(u: real): (r: Result<nat, CalibrationError>)
    ensures r.Err? <==> u > Trunc(3.0 * u) as real
    ensures r.Ok? ==> r.value == Trunc(3.0 * u) && u <= r.value as real
  {
    var k := Trunc(3.0 * u);
    if u > k as real then Err(IllegalK(k, u)) else Ok(k)
  }

  /**
   * Exactly which perplexities pass the check: those of at least 1/3, and those in
   * (-1/3, 0] (where k is 0). A positive perplexity that passes gives at least one
   * neighbour.
   */
  lemma NeighbourCountAccepts(u: real)
    ensures NeighbourCount(u).Ok? <==> (u >= 1.0 / 3.0 || (-1.0 / 3.0 < u && u <= 0.0))
    ensures 0.0 < u && NeighbourCount(u).Ok? ==> NeighbourCount(u).value >= 1
  {
    var k := Trunc(3.0 * u);
    if u >= 1.0 / 3.0 {
      assert k >= 1;
      if u >= 0.5 {
        assert u <= k as real;
      } else {
        assert k == 1;
      }
    } else if 0.0 < u {
      assert k == 0;
    } else if u <= -1.0 / 3.0 {
      assert k <= -1;
      assert u > k as real;
    }
  }

  /** A kernel row over the `k` neighbours together with its entropy `h`. */
  datatype KernelRow = KernelRow(p: seq<real>, h: real)

  /** One kernel entry, exp(-beta * d) (line 405). */
  function Affinity(exp: real -> real, beta: real, d: real): real
  {
    exp(-beta * d)
  }

  /** One term of the entropy sum, beta * (d * p) (line 410). */
  function Energy(beta: real, d: real, p: real): real
  {
    beta * (d * p)
  }

  /**
   * `computeGaussianKernel`: entry m is exp(-beta * distances[m + 1]), so the self
   * match at position 0 is skipped; the entropy is that of `KernelOfRow`.
   */
  function GaussianKernel(distances: seq<real>, beta: real, k: nat,
                          exp: real -> real, log: real -> real): (r: KernelRow)
    requires 0 < k < |distances|
    requires forall x :: exp(x) > 0.0
    ensures |r.p| == k
    ensures forall m :: 0 <= m < k ==> r.p[m] == Affinity(exp, beta, distances[m + 1]) > 0.0
    ensures Sum(r.p) > 0.0
  {
    var p := Affinities(distances, beta, k, exp);
    SumPositive(p);
    KernelOfRow(distances, beta, p, log)
  }

  /** A kernel row p with its entropy h = beta * (sum of d * p) / (sum of p) + log(sum of p). */
  function KernelOfRow(distances: seq<real>, beta: real, p: seq<real>, log: real -> real): (r: KernelRow)
    requires |p| < |distances| && Sum(p) != 0.0
    ensures r.p == p
  {
    var sum := Sum(p);
    KernelRow(p, Sum(Energies(distances, beta, p)) / sum + log(sum))
  }

  /** The kernel entries exp(-beta * distances[m + 1]) for m in 0 .. k - 1 (lines 403-405). */
  function Affinities(distances: seq<real>, beta: real, k: nat, exp: real -> real): (p: seq<real>)
    requires k < |distances|
    requires forall x :: exp(x) > 0.0
    ensures |p| == k
    ensures forall m :: 0 <= m < k ==> p[m] == Affinity(exp, beta, distances[m + 1]) > 0.0
  {
    seq(k, m requires 0 <= m < k => Affinity(exp, beta, distances[m + 1]))
  }

  /** The terms beta * (distances[m + 1] * p[m]) whose sum is the kernel's energy. */
  function Energies(distances: seq<real>, beta: real, p: seq<real>): (w: seq<real>)
    requires |p| < |distances|
    ensures |w| == |p|
    ensures forall m :: 0 <= m < |p| ==> w[m] == Energy(beta, distances[m + 1], p[m])
  {
    seq(|p|, m requires 0 <= m < |p| => Energy(beta, distances[m + 1], p[m]))
  }

  /** The distances distances[m + 1] weighted by q[m]. */
  function Weighted(distances: seq<real>, q: seq<real>): (e: seq<real>)
    requires |q| < |distances|
    ensures |e| == |q|
    ensures forall m :: 0 <= m < |q| ==> e[m] == distances[m + 1] * q[m]
  {
    seq(|q|, m requires 0 <= m < |q| => distances[m + 1] * q[m])
  }

  /** `currP.divi(currP.sum())`: the row divided by its own sum. */
  function Normalize(p: seq<real>): (q: seq<real>)
    requires Sum(p) != 0.0
    ensures |q| == |p|
    ensures forall m :: 0 <= m < |p| ==> q[m] * Sum(p) == p[m]
  {
    DivideAll(p, Sum(p))
  }

  /** A normalised row sums to 1. */
  lemma NormalizeSumsToOne(p: seq<real>)
    requires Sum(p) != 0.0
    ensures Sum(Normalize(p)) == 1.0
  {
    var z := Sum(p);
    SumDivideAll(p, z);
    assert z / z == 1.0;
  }

  /** The kernel reads nothing but distances[1..k]: the self distance and any tail are ignored. */
  lemma KernelIgnoresSelf(d1: seq<real>, d2: seq<real>, beta: real, k: nat,
                          exp: real -> real, log: real -> real)
    requires 0 < k < |d1| && k < |d2|
    requires forall x :: exp(x) > 0.0
    requires d1[1..k + 1] == d2[1..k + 1]
    ensures GaussianKernel(d1, beta, k, exp, log) == GaussianKernel(d2, beta, k, exp, log)
  {
    forall j | 1 <= j <= k
      ensures d1[j] == d2[j]
    {
      assert d1[j] == d1[1..k + 1][j - 1];
      assert d2[j] == d2[1..k + 1][j - 1];
    }
    var p1 := GaussianKernel(d1, beta, k, exp, log).p;
    var p2 := GaussianKernel(d2, beta, k, exp, log).p;
    assert p1 == p2;
    assert Energies(d1, beta, p1) == Energies(d2, beta, p2);
  }

  /**
   * The entropy of a kernel row is that of its normalised row q = p / Z (any q with
   * q * Z = p, as `Normalize(p)` is): h = beta * (expected distance under q) + log Z,
   * with Z the row sum.
   */
  lemma KernelEntropyIsExpectedEnergy(distances: seq<real>, beta: real, p: seq<real>,
                                       log: real -> real, q: seq<real>)
    requires |p| < |distances| && Sum(p) != 0.0
    requires |q| == |p| && forall m :: 0 <= m < |p| ==> q[m] * Sum(p) == p[m]
    ensures KernelOfRow(distances, beta, p, log).h == beta * Sum(Weighted(distances, q)) + log(Sum(p))
  {
    var z := Sum(p);
    EnergyIsScaledRowSum(distances, beta, p, q, z);
    DivideCancels(Sum(Energies(distances, beta, p)), z, beta * Sum(Weighted(distances, q)));
  }

  /** For a row p = q * z: the energy terms sum to beta * z * (distances weighted by q). */
  lemma EnergyIsScaledRowSum(distances: seq<real>, beta: real, p: seq<real>, q: seq<real>, z: real)
    requires |p| == |q| < |distances|
    requires forall m :: 0 <= m < |q| ==> q[m] * z == p[m]
    ensures Sum(Energies(distances, beta, p)) == beta * Sum(Weighted(distances, q)) * z
  {
    var w := Weighted(distances, q);
    EnergiesAreScaledWeights(distances, beta, p, q, z);
    SumScaleAll(w, beta * z);
    MulRearrange(Sum(w), beta, z);
  }

  /** With q = p / z, each energy term is the weighted distance d * q scaled by beta * z. */
  lemma EnergiesAreScaledWeights(distances: seq<real>, beta: real, p: seq<real>, q: seq<real>, z: real)
    requires |p| == |q| < |distances|
    requires forall m :: 0 <= m < |q| ==> q[m] * z == p[m]
    ensures Energies(distances, beta, p) == ScaleAll(Weighted(distances, q), beta * z)
  {
    forall m | 0 <= m < |p|
      ensures Energies(distances, beta, p)[m] == ScaleAll(Weighted(distances, q), beta * z)[m]
    {
      EnergyOfScaled(beta, distances[m + 1], p[m], q[m], z);
    }
  }

  /** One term: with p = q * z, beta * (d * p) = (d * q) * (beta * z). */
  lemma EnergyOfScaled(beta: real, d: real, p: real, q: real, z: real)
    requires q * z == p
    ensures Energy(beta, d, p) == (d * q) * (beta * z)
  {
  }

  /** The state of the bracketing search for one point: candidate precision and its bounds. */
  datatype Bracket = Bracket(beta: real, lo: real, hi: real)

  /** The starting state: betas = 1 (the untouched `beta` array), both bounds at the sentinels. */
  const InitialBracket: Bracket := Bracket(1.0, -MaxDouble, MaxDouble)

  /**
   * One refinement (lines 205-218): with a positive entropy gap the candidate becomes
   * the lower bound and moves up (doubling while no upper bound is set, otherwise
   * halfway to it); otherwise it becomes the upper bound and moves down.
   */
  function Refine(b: Bracket, hDiff: real): (r: Bracket)
    ensures hDiff > 0.0 ==> r.lo == b.beta && r.hi == b.hi
    ensures hDiff <= 0.0 ==> r.lo == b.lo && r.hi == b.beta
    ensures 0.0 < b.beta && 0.0 < b.hi && (b.lo == -MaxDouble || 0.0 < b.lo) ==> 0.0 < r.beta
  {
    if hDiff > 0.0 then
      Bracket(if b.hi == MaxDouble || b.hi == -MaxDouble then b.beta * 2.0 else (b.beta + b.hi) / 2.0,
              b.beta, b.hi)
    else
      Bracket(if b.lo == -MaxDouble || b.lo == MaxDouble then b.beta / 2.0 else (b.beta + b.lo) / 2.0,
              b.lo, b.beta)
  }

  /** A bracket whose candidate is positive and strictly between its bounds; a set bound is positive. */
  predicate WellFormed(b: Bracket)
  {
    && 0.0 < b.beta
    && b.lo < b.beta < b.hi <= MaxDouble
    && (b.lo == -MaxDouble || 0.0 < b.lo)
  }

  /**
   * A refinement keeps the bracket well formed and nested, moves the candidate in the
   * direction of the gap, doubles or halves only while the bound on that side is
   * unset, and otherwise lands strictly inside the previous bracket.
   */
  lemma RefineKeepsBracket(b: Bracket, hDiff: real)
    requires WellFormed(b)
    requires 2.0 * b.beta < MaxDouble
    ensures var r := Refine(b, hDiff);
            && WellFormed(r)
            && b.lo <= r.lo && r.hi <= b.hi
            && (hDiff > 0.0 ==> b.beta < r.beta && r.lo == b.beta)
            && (hDiff <= 0.0 ==> r.beta < b.beta && r.hi == b.beta)
            && (hDiff > 0.0 && b.hi == MaxDouble ==> r.beta == 2.0 * b.beta)
            && (hDiff > 0.0 && b.hi != MaxDouble ==> r.beta < b.hi)
            && (hDiff <= 0.0 && b.lo == -MaxDouble ==> r.beta == b.beta / 2.0)
            && (hDiff <= 0.0 && b.lo != -MaxDouble ==> b.lo < r.beta)
  {
  }

  /** Line 202: the gap is within the tolerance on both sides. */
  predicate WithinTolerance(hDiff: real, tolerance: real): (w: bool)
    ensures w <==> (if hDiff < 0.0 then -hDiff else hDiff) < tolerance
    ensures w ==> 0.0 < tolerance
  {
    hDiff < tolerance && -hDiff < tolerance
  }

  function Pow2(n: nat): (r: real)
    ensures r >= 1.0
  {
    if n == 0 then 1.0 else 2.0 * Pow2(n - 1)
  }

  lemma {:induction false} Pow2Add(a: nat, b: nat)
    ensures Pow2(a + b) == Pow2(a) * Pow2(b)
  {
    if a > 0 {
      Pow2Add(a - 1, b);
    }
  }

  lemma {:induction false} Pow2Monotone(a: nat, b: nat)
    requires a <= b
    ensures Pow2(a) <= Pow2(b)
  {
    if a < b {
      Pow2Monotone(a, b - 1);
    }
  }

  /** 2^200 stays below Double.MAX_VALUE, so 200 doublings from 1 never reach the sentinel. */
  lemma CapBelowMaxDouble()
    ensures Pow2(MaxTries) < MaxDouble
  {
    assert Pow2(10) == 1024.0;
    Pow2Add(10, 10);
    assert Pow2(20) == 1048576.0;
    Pow2Add(20, 20);
    assert Pow2(40) == 1099511627776.0;
    Pow2Add(40, 40);
    assert Pow2(80) == 1208925819614629174706176.0;
    Pow2Add(80, 80);
    Pow2Add(160, 40);
  }

  /**
   * The brackets a search has visited: it starts from the initial bracket, every
   * bracket is well formed, and each one after the first is the refinement of the
   * one before, taken only because that one's gap failed the tolerance test.
   */
  ghost predicate Explored(trail: seq<Bracket>, entropy: real -> real, logU: real, tolerance: real)
  {
    && |trail| > 0
    && trail[0] == InitialBracket
    && (forall j :: 0 <= j < |trail| ==> WellFormed(trail[j]))
    && (forall j :: 0 <= j < |trail| - 1 ==>
          !WithinTolerance(entropy(trail[j].beta) - logU, tolerance)
          && trail[j + 1] == Refine(trail[j], entropy(trail[j].beta) - logU))
  }

  lemma ExploredExtend(trail: seq<Bracket>, entropy: real -> real, logU: real, tolerance: real)
    requires Explored(trail, entropy, logU, tolerance)
    requires !WithinTolerance(entropy(trail[|trail| - 1].beta) - logU, tolerance)
    requires WellFormed(Refine(trail[|trail| - 1], entropy(trail[|trail| - 1].beta) - logU))
    ensures Explored(trail + [Refine(trail[|trail| - 1], entropy(trail[|trail| - 1].beta) - logU)],
                     entropy, logU, tolerance)
  {
  }

  /** One more refinement of an unfinished search extends its trail and keeps the candidate below 2^(tries + 1). */
  lemma SearchStepExtends(trail: seq<Bracket>, entropy: real -> real, logU: real, tolerance: real,
                          tries: nat, hDiff: real)
    requires tries < MaxTries && |trail| == tries + 1
    requires Explored(trail, entropy, logU, tolerance)
    requires hDiff == entropy(trail[tries].beta) - logU && !WithinTolerance(hDiff, tolerance)
    requires trail[tries].beta <= Pow2(tries)
    requires trail[tries].hi == MaxDouble || trail[tries].hi <= Pow2(tries)
    ensures var r := Refine(trail[tries], hDiff);
            && Explored(trail + [r], entropy, logU, tolerance)
            && r.beta <= Pow2(tries + 1) && (r.hi == MaxDouble || r.hi <= Pow2(tries + 1))
  {
    CapBelowMaxDouble();
    Pow2Monotone(tries + 1, MaxTries);
    RefineKeepsBracket(trail[tries], hDiff);
    ExploredExtend(trail, entropy, logU, tolerance);
  }

  /**
   * The binary search of lines 188-225 for one point. `entropy(beta)` stands for the
   * `h` of `computeGaussianKernel` at that precision; `logU` is log(perplexity).
   * Every bracket visited is recorded in `trail`, and the search stops either on a
   * gap within the tolerance or after 200 refinements.
   */
  method SearchBeta(entropy: real -> real, logU: real, tolerance: real)
    returns (betas: real, hDiff: real, tries: nat, found: bool, ghost trail: seq<Bracket>)
    ensures tries <= MaxTries
    ensures |trail| == tries + 1 && trail[tries].beta == betas
    ensures Explored(trail, entropy, logU, tolerance)
    ensures hDiff == entropy(betas) - logU
    ensures found ==> WithinTolerance(hDiff, tolerance)
    ensures found <==> tries < MaxTries
  {
    betas := 1.0;
    var betaMin := -MaxDouble;
    var betaMax := MaxDouble;
    hDiff := entropy(betas) - logU;
    tries := 0;
    found := false;
    trail := [Bracket(betas, betaMin, betaMax)];
    while !found && tries < MaxTries
      invariant tries <= MaxTries
      invariant |trail| == tries + 1 && trail[tries] == Bracket(betas, betaMin, betaMax)
      invariant Explored(trail, entropy, logU, tolerance)
      invariant hDiff == entropy(betas) - logU
      invariant betas <= Pow2(tries) && (betaMax == MaxDouble || betaMax <= Pow2(tries))
      invariant found ==> WithinTolerance(hDiff, tolerance) && tries < MaxTries
      decreases MaxTries - tries + (if found then 0 else 1)
    {
      if hDiff < tolerance && -hDiff < tolerance {
        found := true;
      } else {
        SearchStepExtends(trail, entropy, logU, tolerance, tries, hDiff);
        betas, betaMin, betaMax := RefineStep(betas, betaMin, betaMax, hDiff);
        hDiff := entropy(betas) - logU;
        tries := tries + 1;
        trail := trail + [Bracket(betas, betaMin, betaMax)];
      }
    }
  }

  /**
   * The bracket update of lines 205-218 on the three search variables: a positive
   * gap raises the lower bound to the candidate, otherwise the upper bound drops
   * to it, and the candidate moves as `Refine` says.
   */
  method RefineStep(beta: real, lo: real, hi: real, hDiff: real) returns (beta': real, lo': real, hi': real)
    ensures Bracket(beta', lo', hi') == Refine(Bracket(beta, lo, hi), hDiff)
  {
    beta', lo', hi' := beta, lo, hi;
    if hDiff > 0.0 {
      lo' := beta';
      if hi' == MaxDouble || hi' == -MaxDouble {
        beta' := beta' * 2.0;
      } else {
        beta' := (beta' + hi') / 2.0;
      }
    } else {
      hi' := beta';
      if lo' == -MaxDouble || lo' == MaxDouble {
        beta' := beta' / 2.0;
      } else {
        beta' := (beta' + lo') / 2.0;
      }
    }
  }

  /** `rows` (lines 170-175): offset 0 is 0 and each later offset is the one before plus k. */
  function RowOffsets(n: nat, k: nat): (rows: seq<int>)
    ensures |rows| == n + 1 && rows[0] == 0
    ensures forall j :: 0 <= j < n ==> rows[j + 1] == rows[j] + k
  {
    if n == 0 then [0]
    else
      var front := RowOffsets(n - 1, k);
      front + [front[n - 1] + k]
  }

  lemma {:induction false} OffsetIsMultiple(n: nat, k: nat, j: nat)
    requires j <= n
    ensures RowOffsets(n, k)[j] == j * k
  {
    if j > 0 {
      OffsetIsMultiple(n, k, j - 1);
      MulSucc(j - 1, k);
    }
  }

  /** Lines 170-175: the row offsets written one after the other into a fresh array. */
  method RowOffsetsArray(n: nat, k: nat) returns (rows: array<int>)
    ensures fresh(rows) && rows[..] == RowOffsets(n, k)
  {
    rows := new int[n + 1](j => 0);
    var j := 0;
    while j < n
      invariant 0 <= j <= n
      invariant forall t :: 0 <= t <= j ==> rows[t] == RowOffsets(n, k)[t]
    {
      rows[j + 1] := rows[j] + k;
      j := j + 1;
    }
  }

  /**
   * Row i starts at i * k: the offsets never decrease, and the last one, n * k, is
   * the length of `cols` and `vals`.
   */
  lemma RowOffsetsAreMultiples(n: nat, k: nat)
    ensures forall j :: 0 <= j <= n ==> RowOffsets(n, k)[j] == j * k
    ensures forall j1, j2 :: 0 <= j1 <= j2 <= n ==> RowOffsets(n, k)[j1] <= RowOffsets(n, k)[j2]
    ensures RowOffsets(n, k)[n] == n * k
  {
    forall j | 0 <= j <= n
      ensures RowOffsets(n, k)[j] == j * k
    {
      OffsetIsMultiple(n, k, j);
    }
    forall j1, j2 | 0 <= j1 <= j2 <= n
      ensures RowOffsets(n, k)[j1] <= RowOffsets(n, k)[j2]
    {
      MulMonotone(j1, j2, k);
    }
  }

  /** Slot l of a point's row holds the index of search result l + 1, or 0 if fewer came back. */
  function NeighbourIndex(results: seq<int>, l: nat): (j: int)
    ensures l + 1 < |results| ==> j == results[l + 1]
    ensures j != 0 ==> exists m :: 1 <= m < |results| && results[m] == j
  {
    if l + 1 < |results| then results[l + 1] else 0
  }

  /** The neighbour slots of one point: slot l holds `NeighbourIndex(results, l)`. */
  function NeighbourRow(results: seq<int>, k: nat): (row: seq<int>)
    ensures |row| == k
    ensures forall l :: 0 <= l < k ==> row[l] == NeighbourIndex(results, l)
  {
    seq(k, l requires 0 <= l < k => NeighbourIndex(results, l))
  }

  /**
   * The `indices` array of lines 229-234: k + 1 slots, filled from the search
   * results until they run out (the loop breaks), the rest left at 0.
   */
  method NeighbourIndices(results: seq<int>, k: nat) returns (indices: array<int>)
    ensures fresh(indices) && indices.Length == k + 1
    ensures forall j :: 0 <= j <= k ==> indices[j] == (if j < |results| then results[j] else 0)
    ensures indices[1..] == NeighbourRow(results, k)
  {
    indices := new int[k + 1](j => 0);
    var j := 0;
    while j < indices.Length
      invariant 0 <= j <= k + 1 && j <= |results|
      invariant forall t :: 0 <= t < j ==> indices[t] == results[t]
      invariant forall t :: j <= t <= k ==> indices[t] == 0
    {
      if j >= |results| {
        break;
      }
      indices[j] := results[j];
      j := j + 1;
    }
    assert forall l :: 0 <= l < k ==> indices[1..][l] == indices[l + 1];
  }

  /** The neighbour slots of every point. */
  function NeighbourRows(results: seq<seq<int>>, k: nat): (rows: seq<seq<int>>)
    ensures |rows| == |results|
    ensures forall i :: 0 <= i < |results| ==> rows[i] == NeighbourRow(results[i], k)
  {
    seq(|results|, i requires 0 <= i < |results| => NeighbourRow(results[i], k))
  }

  /** The `cols` array the calibration writes: k neighbour slots per point, row after row. */
  function CalibratedCols(results: seq<seq<int>>, k: nat): (cols: seq<int>)
    ensures |cols| == |results| * k
  {
    FlattenLength(NeighbourRows(results, k), k);
    Flatten(NeighbourRows(results, k))
  }

  /** The column indices of the first i + 1 points: those of the first i, then row i. */
  lemma CalibratedColsExtend(results: seq<seq<int>>, k: nat, i: nat)
    requires i < |results|
    ensures CalibratedCols(results[..i + 1], k) == CalibratedCols(results[..i], k) + NeighbourRow(results[i], k)
  {
    var rows := NeighbourRows(results[..i + 1], k);
    FlattenExtend(rows, i);
    assert rows[..i] == NeighbourRows(results[..i], k);
  }

  /** Search results that name points 0 .. bound - 1 give column indices in that range. */
  lemma CalibratedColsBounded(results: seq<seq<int>>, k: nat, bound: nat)
    requires 0 < bound
    requires forall i, j :: 0 <= i < |results| && 0 <= j < |results[i]| ==> 0 <= results[i][j] < bound
    ensures forall j :: 0 <= j < |CalibratedCols(results, k)| ==> 0 <= CalibratedCols(results, k)[j] < bound
  {
    var rows := NeighbourRows(results, k);
    forall i, l | 0 <= i < |rows| && 0 <= l < |rows[i]|
      ensures 0 <= rows[i][l] < bound
    {
      assert rows[i][l] == NeighbourIndex(results[i], l);
    }
    FlattenInRange(rows, 0, bound);
  }

  /**
   * The normalised row stored for one point. The kernel is evaluated at beta = 1,
   * the starting value: the precision the search finds is never used for it (line
   * 220 reassigns `pair`, not `currP`).
   */
  function NormalizedKernel(data: seq<real>, k: nat, exp: real -> real, log: real -> real): (row: seq<real>)
    requires 0 < k < |data|
    requires forall x :: exp(x) > 0.0
    ensures |row| == k
    ensures forall l :: 0 <= l < k ==> row[l] > 0.0
  {
    var p := GaussianKernel(data, 1.0, k, exp, log).p;
    var row := Normalize(p);
    assert forall l :: 0 <= l < k ==> row[l] * Sum(p) == p[l] > 0.0;
    row
  }

  /** The row stored for one point; with k = 0 there is nothing to store. */
  function CalibratedRow(data: seq<real>, k: nat, exp: real -> real, log: real -> real): (row: seq<real>)
    requires k == 0 || k < |data|
    requires forall x :: exp(x) > 0.0
    ensures |row| == k
  {
    if k == 0 then [] else NormalizedKernel(data, k, exp, log)
  }

  /** Every distance row can be read at positions 1 .. k (nothing is read when k is 0). */
  predicate LongEnough(data: seq<seq<real>>, k: nat)
  {
    forall i :: 0 <= i < |data| ==> k == 0 || k < |data[i]|
  }

  lemma LongEnoughExtend(data: seq<seq<real>>, k: nat, i: nat)
    requires i < |data| && LongEnough(data[..i], k) && (k == 0 || k < |data[i]|)
    ensures LongEnough(data[..i + 1], k)
  {
    assert forall t :: 0 <= t < i ==> data[..i + 1][t] == data[..i][t];
  }

  /** The first point whose distance row is too short to be read at positions 1 .. k. */
  function FirstShortRow(data: seq<seq<real>>, k: nat): (r: Option<nat>)
    ensures r.None? <==> LongEnough(data, k)
    ensures r.Some? ==> r.value < |data| && 0 < k && |data[r.value]| <= k && LongEnough(data[..r.value], k)
  {
    if |data| == 0 then None
    else
      var n := |data| - 1;
      assert forall i :: 0 <= i < n ==> data[..n][i] == data[i];
      match FirstShortRow(data[..n], k)
      case Some(j) =>
        assert data[..n][..j] == data[..j];
        Some(j)
      case None =>
        if 0 < k && |data[n]| <= k then Some(n)
        else None
  }

  /** A row that is too short after rows that are all long enough is the first short row. */
  lemma {:induction false} FirstShortRowAt(data: seq<seq<real>>, k: nat, i: nat)
    requires i < |data| && 0 < k && |data[i]| <= k
    requires LongEnough(data[..i], k)
    ensures FirstShortRow(data, k) == Some(i)
  {
    var n := |data| - 1;
    if i < n {
      assert data[..n][..i] == data[..i];
      FirstShortRowAt(data[..n], k, i);
    } else {
      assert data[..n] == data[..i];
    }
  }

  /** The normalised kernel row of every point. */
  function CalibratedRows(data: seq<seq<real>>, k: nat, exp: real -> real, log: real -> real): (rows: seq<seq<real>>)
    requires LongEnough(data, k)
    requires forall x :: exp(x) > 0.0
    ensures |rows| == |data|
    ensures forall i :: 0 <= i < |data| ==> rows[i] == CalibratedRow(data[i], k, exp, log)
  {
    seq(|data|, i requires 0 <= i < |data| => CalibratedRow(data[i], k, exp, log))
  }

  /** The kernel rows of the first i points are the first i kernel rows. */
  lemma CalibratedRowsPrefix(data: seq<seq<real>>, k: nat, exp: real -> real, log: real -> real, i: nat)
    requires i <= |data| && LongEnough(data, k)
    requires forall x :: exp(x) > 0.0
    ensures LongEnough(data[..i], k)
    ensures CalibratedRows(data[..i], k, exp, log) == CalibratedRows(data, k, exp, log)[..i]
  {
    assert forall t :: 0 <= t < i ==> data[..i][t] == data[t];
  }

  /** The `vals` array the calibration writes: each point's normalised kernel row, row after row. */
  function CalibratedVals(data: seq<seq<real>>, k: nat, exp: real -> real, log: real -> real): (vals: seq<real>)
    requires LongEnough(data, k)
    requires forall x :: exp(x) > 0.0
    ensures |vals| == |data| * k
  {
    FlattenLength(CalibratedRows(data, k, exp, log), k);
    Flatten(CalibratedRows(data, k, exp, log))
  }

  /** The calibrated values of the first i + 1 points: those of the first i, then row i. */
  lemma CalibratedValsExtend(data: seq<seq<real>>, k: nat, exp: real -> real, log: real -> real, i: nat)
    requires i < |data| && LongEnough(data[..i + 1], k)
    requires forall x :: exp(x) > 0.0
    ensures LongEnough(data[..i], k) && (k == 0 || k < |data[i]|)
    ensures CalibratedVals(data[..i + 1], k, exp, log) == CalibratedVals(data[..i], k, exp, log) + CalibratedRow(data[i], k, exp, log)
  {
    var rows := CalibratedRows(data[..i + 1], k, exp, log);
    CalibratedRowsPrefix(data[..i + 1], k, exp, log, i);
    assert data[..i + 1][..i] == data[..i] && data[..i + 1][i] == data[i];
    FlattenExtend(rows, i);
  }

  /** Every stored affinity is positive. */
  lemma CalibratedValsPositive(data: seq<seq<real>>, k: nat, exp: real -> real, log: real -> real)
    requires LongEnough(data, k)
    requires forall x :: exp(x) > 0.0
    ensures forall j :: 0 <= j < |CalibratedVals(data, k, exp, log)| ==> CalibratedVals(data, k, exp, log)[j] > 0.0
  {
    var rows := CalibratedRows(data, k, exp, log);
    forall i, l | 0 <= i < |rows| && 0 <= l < |rows[i]|
      ensures rows[i][l] > 0.0
    {
      assert rows[i] == NormalizedKernel(data[i], k, exp, log);
    }
    FlattenPositive(rows);
  }

  /**
   * Row i of `vals`: after the rows of points 0 .. i - 1 (i * k values) comes point
   * i's normalised kernel row.
   */
  lemma CalibratedValsRow(data: seq<seq<real>>, k: nat, exp: real -> real, log: real -> real, i: nat)
    requires LongEnough(data, k)
    requires forall x :: exp(x) > 0.0
    requires i < |data|
    ensures LongEnough(data[..i], k) && (k == 0 || k < |data[i]|)
    ensures CalibratedVals(data[..i], k, exp, log) + CalibratedRow(data[i], k, exp, log) <= CalibratedVals(data, k, exp, log)
  {
    CalibratedRowsPrefix(data, k, exp, log, i);
    FlattenRow(CalibratedRows(data, k, exp, log), i);
  }

  /**
   * Row i of `cols`: after the slots of points 0 .. i - 1 (i * k indices) come point
   * i's neighbour slots.
   */
  lemma CalibratedColsRow(results: seq<seq<int>>, k: nat, i: nat)
    requires i < |results|
    ensures CalibratedCols(results[..i], k) + NeighbourRow(results[i], k) <= CalibratedCols(results, k)
  {
    assert NeighbourRows(results[..i], k) == NeighbourRows(results, k)[..i];
    FlattenRow(NeighbourRows(results, k), i);
  }

  /** Every stored row sums to 1, so all of `vals` sums to the number of points. */
  lemma CalibratedValsSum(data: seq<seq<real>>, k: nat, exp: real -> real, log: real -> real)
    requires 0 < k && LongEnough(data, k)
    requires forall x :: exp(x) > 0.0
    ensures forall i :: 0 <= i < |data| ==> Sum(CalibratedRow(data[i], k, exp, log)) == 1.0
    ensures Sum(CalibratedVals(data, k, exp, log)) == |data| as real
  {
    var rows := CalibratedRows(data, k, exp, log);
    forall i | 0 <= i < |rows|
      ensures Sum(rows[i]) == 1.0
    {
      NormalizeSumsToOne(GaussianKernel(data[i], 1.0, k, exp, log).p);
    }
    FlattenSumOfUnitRows(rows);
  }


  /** The entropy the search sees at precision beta: the `h` of the kernel over one distance row. */
  function EntropyOf(distances: seq<real>, k: nat, exp: real -> real, log: real -> real): real -> real
    requires 0 < k < |distances|
    requires forall x :: exp(x) > 0.0
  {
    beta => GaussianKernel(distances, beta, k, exp, log).h
  }

  /**
   * Writing point i's neighbour slots at offset i * k keeps the first i points'
   * slots as a prefix and extends them by point i's.
   */
  lemma StoredColsExtend(results: seq<seq<int>>, k: nat, i: nat, cols0: seq<int>, cols1: seq<int>)
    requires i < |results|
    requires i * k + k <= |cols0|
    requires CalibratedCols(results[..i], k) <= cols0
    requires cols1 == cols0[..i * k] + NeighbourRow(results[i], k) + cols0[i * k + k..]
    ensures CalibratedCols(results[..i + 1], k) <= cols1
  {
    PrefixAfterStore(cols0, cols1, i * k, NeighbourRow(results[i], k), CalibratedCols(results[..i], k));
    CalibratedColsExtend(results, k, i);
  }

  /**
   * Writing point i's calibrated row at offset i * k keeps the first i points' rows
   * as a prefix and extends them by point i's.
   */
  lemma StoredValsExtend(distances: seq<seq<real>>, k: nat, exp: real -> real, log: real -> real,
                         i: nat, vals0: seq<real>, vals1: seq<real>)
    requires i < |distances|
    requires forall x :: exp(x) > 0.0
    requires LongEnough(distances[..i], k) && (k == 0 || k < |distances[i]|)
    requires i * k + k <= |vals0|
    requires CalibratedVals(distances[..i], k, exp, log) <= vals0
    requires vals1 == vals0[..i * k] + CalibratedRow(distances[i], k, exp, log) + vals0[i * k + k..]
    ensures LongEnough(distances[..i + 1], k)
    ensures CalibratedVals(distances[..i + 1], k, exp, log) <= vals1
  {
    var row := CalibratedRow(distances[i], k, exp, log);
    PrefixAfterStore(vals0, vals1, i * k, row, CalibratedVals(distances[..i], k, exp, log));
    LongEnoughExtend(distances, k, i);
    CalibratedValsExtend(distances, k, exp, log, i);
  }

  /**
   * The write loop of lines 236-239 for a row starting at `base`: slot l gets the
   * index of search result l + 1 (`indices[l + 1]`) in `cols` and the normalised
   * affinity `row[l]` in `vals`; nothing outside the row changes.
   */
  method StoreRow(cols: array<int>, vals: array<real>, base: nat, indices: array<int>, row: seq<real>)
    requires cols != indices
    requires indices.Length == |row| + 1
    requires base + |row| <= cols.Length && base + |row| <= vals.Length
    modifies cols, vals
    ensures cols[..] == old(cols[..base]) + indices[1..] + old(cols[base + |row|..])
    ensures vals[..] == old(vals[..base]) + row + old(vals[base + |row|..])
  {
    ghost var cols0, vals0, slots := cols[..], vals[..], indices[1..];
    var l := 0;
    while l < |row|
      invariant 0 <= l <= |row|
      invariant cols[..] == cols0[..base] + slots[..l] + cols0[base + l..]
      invariant vals[..] == vals0[..base] + row[..l] + vals0[base + l..]
    {
      SpliceStep(cols0, cols[..], base, slots, l);
      SpliceStep(vals0, vals[..], base, row, l);
      cols[base + l] := indices[l + 1];
      vals[base + l] := row[l];
      l := l + 1;
    }
    assert slots[..l] == slots && row[..l] == row;
  }
}
