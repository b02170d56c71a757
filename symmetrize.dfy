/**
 * `symmetrized` of BarnesHutTsne.java, lines 310-391: turning the calibrated
 * compressed-sparse-row matrix (rowP, colP, valP) into a symmetric one.
 *
 * The specification is written as folds over the stored entries, in the order the
 * Java loops visit them:
 *  - pass 1 (`Counts`) counts, per row, the entries the symmetric matrix will hold;
 *  - `PrefixSums` turns the counts into the new row offsets `symRowP`;
 *  - pass 2 (`PassTwo`) places each entry through the per-row `offset` counters;
 *  - the placed values are finally halved.
 * The imperative methods at the end of the module run the same loops over arrays
 * and are proved to produce exactly these values.
 */
module Symmetrize {
  import opened Common

  /** A matrix in compressed-sparse-row form: row r holds the entries rowP[r] .. rowP[r + 1] - 1. */
  datatype Csr = Csr(rowP: seq<int>, colP: seq<int>, valP: seq<real>)

  /**
   * What the loops need to read the matrix without leaving the arrays: n + 1 row
   * offsets inside the entry arrays, and every column index naming one of the n rows.
   */
  predicate Valid(a: Csr, n: nat)
  {
    && |a.rowP| == n + 1
    && |a.valP| == |a.colP|
    && (forall r :: 0 <= r <= n ==> 0 <= a.rowP[r] <= |a.colP|)
    && (forall i :: 0 <= i < |a.colP| ==> 0 <= a.colP[i] < n)
  }

  /** Number of entries stored in row r (an offset pair in the wrong order gives an empty row). */
  function RowSpan(a: Csr, n: nat, r: nat): nat
    requires Valid(a, n) && r < n
  {
    if a.rowP[r] < a.rowP[r + 1] then a.rowP[r + 1] - a.rowP[r] else 0
  }

  /** Number of entries stored in rows 0 .. r - 1. */
  function Stored(a: Csr, n: nat, r: nat): nat
    requires Valid(a, n) && r <= n
  {
    if r == 0 then 0 else Stored(a, n, r - 1) + RowSpan(a, n, r - 1)
  }

  /** With non-decreasing offsets, the stored entries of rows 0 .. r - 1 are rowP[r] - rowP[0]. */
  lemma {:induction false} StoredMonotone(a: Csr, n: nat, r: nat)
    requires Valid(a, n) && r <= n
    requires forall j :: 0 <= j < n ==> a.rowP[j] <= a.rowP[j + 1]
    ensures Stored(a, n, r) == a.rowP[r] - a.rowP[0]
  {
    if r > 0 {
      StoredMonotone(a, n, r - 1);
    }
  }

  /** Line 317: some entry of row c (scanned over its full extent) has column r. */
  predicate HasMirror(a: Csr, n: nat, r: int, c: nat): (h: bool)
    requires Valid(a, n) && c < n
    ensures h ==> a.rowP[c] < a.rowP[c + 1] && r in a.colP
    ensures a.rowP[c] < a.rowP[c + 1] && a.colP[a.rowP[c]] == r ==> h
  {
    exists m :: a.rowP[c] <= m < a.rowP[c + 1] && a.colP[m] == r
  }

  function Zeros(n: nat): (z: seq<int>)
    ensures |z| == n && forall j :: 0 <= j < n ==> z[j] == 0
  {
    seq(n, j => 0)
  }

  function RealZeros(n: nat): (z: seq<real>)
    ensures |z| == n && forall j :: 0 <= j < n ==> z[j] == 0.0
  {
    seq(n, j => 0.0)
  }

  lemma {:induction false} SumZeros(n: nat)
    ensures SumInt(Zeros(n)) == 0
  {
    if n > 0 {
      SumZeros(n - 1);
      assert Zeros(n)[..n - 1] == Zeros(n - 1);
    }
  }

  /** One stored entry (r, c) counted: row r gets one more, and row c one more unless the mirror is stored. */
  function Tally(cnt: seq<int>, r: nat, c: nat, mirrored: bool): (cnt': seq<int>)
    requires r < |cnt| && c < |cnt|
    ensures |cnt'| == |cnt|
    ensures forall j :: 0 <= j < |cnt| && j != r && j != c ==> cnt'[j] == cnt[j]
    ensures cnt'[r] == cnt[r] + (if r == c && !mirrored then 2 else 1)
    ensures c != r ==> cnt'[c] == cnt[c] + (if mirrored then 0 else 1)
  {
    var once := cnt[r := cnt[r] + 1];
    once[c := once[c] + (if mirrored then 0 else 1)]
  }

  /** A tally adds one to the total count when the mirror is stored, two otherwise. */
  lemma TallyTotal(cnt: seq<int>, r: nat, c: nat, mirrored: bool)
    requires r < |cnt| && c < |cnt|
    ensures SumInt(Tally(cnt, r, c, mirrored)) == SumInt(cnt) + (if mirrored then 1 else 2)
  {
    SumIntAddTwice(cnt, r, c, if mirrored then 0 else 1);
  }

  /** Pass 1 for entry i of row r (lines 315-330): the tally of (r, colP[i]) with the mirror scan of line 317. */
  function CountEntry(a: Csr, n: nat, r: nat, i: nat, cnt: seq<int>): (cnt': seq<int>)
    requires Valid(a, n) && r < n && i < |a.colP| && |cnt| == n
    ensures |cnt'| == n
    ensures cnt[r] < cnt'[r]
    ensures forall j :: 0 <= j < n && j != r && j != a.colP[i] ==> cnt'[j] == cnt[j]
  {
    Tally(cnt, r, a.colP[i], HasMirror(a, n, r, a.colP[i]))
  }

  /** Pass 1 over the entries rowP[r] .. i - 1 of row r. */
  function CountRow(a: Csr, n: nat, r: nat, i: nat, cnt: seq<int>): (cnt': seq<int>)
    requires Valid(a, n) && r < n && i <= |a.colP| && |cnt| == n
    ensures |cnt'| == n
    ensures forall j :: 0 <= j < n ==> cnt[j] <= cnt'[j]
    decreases i
  {
    if i <= a.rowP[r] then cnt
    else CountEntry(a, n, r, i - 1, CountRow(a, n, r, i - 1, cnt))
  }

  /** The entries of a row add between one and two counts each to the total. */
  lemma {:induction false} CountRowTotal(a: Csr, n: nat, r: nat, i: nat, cnt: seq<int>)
    requires Valid(a, n) && r < n && i <= |a.colP| && |cnt| == n
    ensures var len := if a.rowP[r] < i then i - a.rowP[r] else 0;
            SumInt(cnt) + len <= SumInt(CountRow(a, n, r, i, cnt)) <= SumInt(cnt) + 2 * len
    decreases i
  {
    if a.rowP[r] < i {
      CountRowTotal(a, n, r, i - 1, cnt);
      var c := a.colP[i - 1];
      TallyTotal(CountRow(a, n, r, i - 1, cnt), r, c, HasMirror(a, n, r, c));
    }
  }

  /** Pass 1 over rows 0 .. r - 1, starting from all-zero counts (`rowCounts`). */
  function Counts(a: Csr, n: nat, r: nat): (cnt: seq<int>)
    requires Valid(a, n) && r <= n
    ensures |cnt| == n
    ensures forall j :: 0 <= j < n ==> 0 <= cnt[j]
    ensures Stored(a, n, r) <= SumInt(cnt) <= 2 * Stored(a, n, r)
  {
    if r == 0 then
      SumZeros(n);
      Zeros(n)
    else
      CountRowTotal(a, n, r - 1, a.rowP[r], Counts(a, n, r - 1));
      CountRow(a, n, r - 1, a.rowP[r], Counts(a, n, r - 1))
  }

  /**
   * `numElements` (line 334): every stored entry is counted once, and once more
   * when its mirror is missing, so the symmetric matrix holds between nnz and 2 nnz entries.
   */
  function NumElements(a: Csr, n: nat): (total: nat)
    requires Valid(a, n)
    ensures Stored(a, n, n) <= total <= 2 * Stored(a, n, n)
  {
    SumInt(Counts(a, n, n))
  }

  /** `symRowP` (lines 340-341): entry j + 1 is entry j plus the count of row j, from 0. */
  function PrefixSums(counts: seq<int>): (s: seq<int>)
    ensures |s| == |counts| + 1 && s[0] == 0
    ensures forall j :: 0 <= j < |counts| ==> s[j + 1] == s[j] + counts[j]
    ensures s[|counts|] == SumInt(counts)
  {
    if |counts| == 0 then [0]
    else
      var front := PrefixSums(counts[..|counts| - 1]);
      front + [front[|counts| - 1] + counts[|counts| - 1]]
  }

  /** With non-negative counts the offsets never decrease, and all lie between 0 and the total. */
  lemma {:induction false} PrefixSumsMonotone(counts: seq<int>, j1: nat, j2: nat)
    requires forall j :: 0 <= j < |counts| ==> 0 <= counts[j]
    requires j1 <= j2 <= |counts|
    ensures 0 <= PrefixSums(counts)[j1] <= PrefixSums(counts)[j2] <= SumInt(counts)
  {
    if |counts| > 0 {
      var front := counts[..|counts| - 1];
      var s := PrefixSums(counts);
      var f := PrefixSums(front);
      assert s[..|counts|] == f;
      if j2 < |counts| {
        PrefixSumsMonotone(front, j1, j2);
      } else if j1 < j2 {
        PrefixSumsMonotone(front, j1, |front|);
        assert s[j1] == f[j1];
      } else {
        PrefixSumsMonotone(front, |front|, |front|);
      }
    }
  }

  /** The state pass 2 updates: the per-row `offset` counters, `symColP` and `symValP`. */
  datatype Placement = Placement(offset: seq<int>, col: seq<int>, val: seq<real>)

  /** The index errors the array accesses of pass 2 raise. */
  datatype SymError = ReadOutOfRange(index: int) | WriteOutOfRange(index: int)

  /**
   * Pass 2 for entry i of row r (lines 346-382). Only the first slot m = rowP[col]
   * of the column's row is compared with r (the loop bound is rowP[col] + 1). When
   * r < col the entry and its mirror are written at symRowP + offset of both rows,
   * with valP[i] + valP[m] if the mirror was seen and valP[i] otherwise. The offsets
   * of both rows advance unless the mirror was seen from the higher row.
   */
  function PlaceEntry(a: Csr, n: nat, s: seq<int>, r: nat, i: nat, st: Placement): (res: Result<Placement, SymError>)
    requires Valid(a, n) && r < n && i < |a.colP|
    requires |s| == n + 1 && |st.offset| == n && |st.col| == |st.val|
    ensures res.Ok? ==> |res.value.offset| == n && |res.value.col| == |st.col| && |res.value.val| == |st.val|
    ensures res.Ok? ==> forall j :: 0 <= j < n ==> st.offset[j] <= res.value.offset[j]
    ensures res.Ok? && a.colP[i] <= r ==> res.value.col == st.col && res.value.val == st.val
  {
    var c := a.colP[i];
    var m := a.rowP[c];
    if m < 0 || m >= |a.colP| then Err(ReadOutOfRange(m))
    else
      var present := a.colP[m] == r;
      var p := s[r] + st.offset[r];
      var q := s[c] + st.offset[c];
      if r < c && (p < 0 || p >= |st.col|) then Err(WriteOutOfRange(p))
      else if r < c && (q < 0 || q >= |st.col|) then Err(WriteOutOfRange(q))
      else
        var v := if present then a.valP[i] + a.valP[m] else a.valP[i];
        Ok(Placed(st, r, c, p, q, v, present))
  }

  /**
   * The writes of pass 2 for an entry (r, c) whose value is v: when r < c the entry
   * and its mirror go to slots p and q; the offsets of both rows then advance unless
   * the mirror was seen from the higher row.
   */
  function Placed(st: Placement, r: nat, c: nat, p: int, q: int, v: real, present: bool): (st': Placement)
    requires r < |st.offset| && c < |st.offset| && |st.col| == |st.val|
    requires r < c ==> 0 <= p < |st.col| && 0 <= q < |st.col|
    ensures |st'.offset| == |st.offset| && |st'.col| == |st.col| && |st'.val| == |st.val|
    ensures forall j :: 0 <= j < |st.offset| ==> st.offset[j] <= st'.offset[j]
    ensures c <= r ==> st'.col == st.col && st'.val == st.val
    ensures r < c ==> st'.col[q] == r && st'.val[q] == v && st'.val[p] == v && (p != q ==> st'.col[p] == c)
  {
    var col := if r < c then st.col[p := c][q := r] else st.col;
    var val := if r < c then st.val[p := v][q := v] else st.val;
    var once := if !present || r < c then st.offset[r := st.offset[r] + 1] else st.offset;
    var offset := if (!present || r < c) && c != r then once[c := once[c] + 1] else once;
    Placement(offset, col, val)
  }

  /** Pass 2 over the entries rowP[r] .. i - 1 of row r; the first error stops it. */
  function PlaceRow(a: Csr, n: nat, s: seq<int>, r: nat, i: nat, st: Placement): (res: Result<Placement, SymError>)
    requires Valid(a, n) && r < n && i <= |a.colP|
    requires |s| == n + 1 && |st.offset| == n && |st.col| == |st.val|
    ensures res.Ok? ==> |res.value.offset| == n && |res.value.col| == |st.col| && |res.value.val| == |st.val|
    ensures res.Ok? ==> forall j :: 0 <= j < n ==> st.offset[j] <= res.value.offset[j]
    decreases i
  {
    if i <= a.rowP[r] then Ok(st)
    else
      match PlaceRow(a, n, s, r, i - 1, st)
      case Err(e) => Err(e)
      case Ok(st1) => PlaceEntry(a, n, s, r, i - 1, st1)
  }

  /** The state pass 2 starts from: zero offsets and `total` zero entries. */
  function InitialPlacement(n: nat, total: nat): Placement
  {
    Placement(Zeros(n), Zeros(total), RealZeros(total))
  }

  /** Pass 2 over rows 0 .. r - 1. */
  function PassTwo(a: Csr, n: nat, s: seq<int>, r: nat, total: nat): (res: Result<Placement, SymError>)
    requires Valid(a, n) && r <= n && |s| == n + 1
    ensures res.Ok? ==> |res.value.offset| == n && |res.value.col| == total && |res.value.val| == total
    ensures res.Ok? ==> forall j :: 0 <= j < n ==> 0 <= res.value.offset[j]
  {
    if r == 0 then Ok(InitialPlacement(n, total))
    else
      match PassTwo(a, n, s, r - 1, total)
      case Err(e) => Err(e)
      case Ok(st) => PlaceRow(a, n, s, r - 1, a.rowP[r], st)
  }

  /**
   * `symmetrized`: the values placed by pass 2, halved (line 386), or the index
   * error pass 2 runs into. Only `symValP` is returned.
   */
  function Symmetrized(a: Csr, n: nat): (res: Result<seq<real>, SymError>)
    requires Valid(a, n)
    ensures res.Ok? ==> |res.value| == NumElements(a, n)
    ensures res.Ok? <==> PassTwo(a, n, PrefixSums(Counts(a, n, n)), n, NumElements(a, n)).Ok?
    ensures res.Ok? ==> forall j :: 0 <= j < |res.value| ==>
              res.value[j] * 2.0 == PassTwo(a, n, PrefixSums(Counts(a, n, n)), n, NumElements(a, n)).value.val[j]
  {
    var placed := PassTwo(a, n, PrefixSums(Counts(a, n, n)), n, NumElements(a, n));
    if placed.Err? then Err(placed.error) else Ok(DivideAll(placed.value.val, 2.0))
  }

  predicate NonNegative(v: seq<real>)
  {
    forall j :: 0 <= j < |v| ==> 0.0 <= v[j]
  }

  /** Pass 2 only writes input values or sums of two of them, so it keeps values non-negative. */
  lemma {:induction false} PlaceRowNonNegative(a: Csr, n: nat, s: seq<int>, r: nat, i: nat, st: Placement)
    requires Valid(a, n) && r < n && i <= |a.colP|
    requires |s| == n + 1 && |st.offset| == n && |st.col| == |st.val|
    requires NonNegative(a.valP) && NonNegative(st.val)
    ensures PlaceRow(a, n, s, r, i, st).Ok? ==> NonNegative(PlaceRow(a, n, s, r, i, st).value.val)
    decreases i
  {
    if i > a.rowP[r] {
      PlaceRowNonNegative(a, n, s, r, i - 1, st);
    }
  }

  lemma {:induction false} PassTwoNonNegative(a: Csr, n: nat, s: seq<int>, r: nat, total: nat)
    requires Valid(a, n) && r <= n && |s| == n + 1
    requires NonNegative(a.valP)
    ensures PassTwo(a, n, s, r, total).Ok? ==> NonNegative(PassTwo(a, n, s, r, total).value.val)
  {
    if r > 0 {
      PassTwoNonNegative(a, n, s, r - 1, total);
      var prev := PassTwo(a, n, s, r - 1, total);
      if prev.Ok? {
        PlaceRowNonNegative(a, n, s, r - 1, a.rowP[r], prev.value);
      }
    }
  }

  /** Non-negative affinities give non-negative symmetrized affinities. */
  lemma SymmetrizedNonNegative(a: Csr, n: nat)
    requires Valid(a, n) && NonNegative(a.valP)
    ensures Symmetrized(a, n).Ok? ==> NonNegative(Symmetrized(a, n).value)
  {
    PassTwoNonNegative(a, n, PrefixSums(Counts(a, n, n)), n, NumElements(a, n));
  }

  /** The mirror scan of lines 317-320: is r among the columns of row c? */
  method ScanForMirror(rowP: array<int>, colP: array<int>, ghost a: Csr, n: nat, r: int, c: nat)
    returns (present: bool)
    requires Valid(a, n) && rowP[..] == a.rowP && colP[..] == a.colP && c < n
    ensures present == HasMirror(a, n, r, c)
  {
    present := false;
    var m := rowP[c];
    while m < rowP[c + 1]
      invariant a.rowP[c] <= m <= a.rowP[c + 1] || m == a.rowP[c]
      invariant present <==> exists j :: a.rowP[c] <= j < m && a.colP[j] == r
    {
      if colP[m] == r {
        present := true;
      }
      m := m + 1;
    }
  }

  /** Pass 1 for entry i of row r (lines 315-330), on the `rowCounts` array. */
  method CountEntryStep(rowP: array<int>, colP: array<int>, ghost a: Csr, n: nat,
                        r: nat, i: nat, rowCounts: array<int>)
    requires Valid(a, n) && rowP[..] == a.rowP && colP[..] == a.colP && r < n && i < colP.Length
    requires rowCounts.Length == n && rowCounts != rowP && rowCounts != colP
    modifies rowCounts
    ensures rowCounts[..] == CountEntry(a, n, r, i, old(rowCounts[..]))
  {
    var c := colP[i];
    var present := ScanForMirror(rowP, colP, a, n, r, c);
    if present {
      rowCounts[r] := rowCounts[r] + 1;
    } else {
      rowCounts[r] := rowCounts[r] + 1;
      rowCounts[c] := rowCounts[c] + 1;
    }
  }

  /** Pass 1 over row r (lines 313-330), on the `rowCounts` array. */
  method CountRowStep(rowP: array<int>, colP: array<int>, ghost a: Csr, n: nat,
                      r: nat, rowCounts: array<int>)
    requires Valid(a, n) && rowP[..] == a.rowP && colP[..] == a.colP && r < n
    requires rowCounts.Length == n && rowCounts != rowP && rowCounts != colP
    modifies rowCounts
    ensures rowCounts[..] == CountRow(a, n, r, a.rowP[r + 1], old(rowCounts[..]))
  {
    ghost var start := rowCounts[..];
    var i := rowP[r];
    while i < rowP[r + 1]
      invariant a.rowP[r] <= i <= |a.colP|
      invariant i == a.rowP[r] || i <= a.rowP[r + 1]
      invariant rowCounts[..] == CountRow(a, n, r, i, start)
    {
      assert CountRow(a, n, r, i + 1, start) == CountEntry(a, n, r, i, CountRow(a, n, r, i, start));
      CountEntryStep(rowP, colP, a, n, r, i, rowCounts);
      i := i + 1;
    }
    if i != a.rowP[r + 1] {
      assert CountRow(a, n, r, a.rowP[r + 1], start) == start == CountRow(a, n, r, i, start);
    }
  }

  /** Pass 1 (lines 311-331) into a fresh `rowCounts` array. */
  method CountPass(rowP: array<int>, colP: array<int>, ghost a: Csr, n: nat)
    returns (rowCounts: array<int>)
    requires Valid(a, n) && rowP[..] == a.rowP && colP[..] == a.colP
    ensures fresh(rowCounts)
    ensures rowCounts[..] == Counts(a, n, n)
  {
    rowCounts := new int[n](j => 0);
    assert rowCounts[..] == Zeros(n);
    CountRows(rowP, colP, a, n, rowCounts);
  }

  /** The loop of pass 1 over the rows, on counters that start at zero. */
  method CountRows(rowP: array<int>, colP: array<int>, ghost a: Csr, n: nat, rowCounts: array<int>)
    requires Valid(a, n) && rowP[..] == a.rowP && colP[..] == a.colP
    requires rowCounts != rowP && rowCounts != colP
    requires rowCounts[..] == Counts(a, n, 0)
    modifies rowCounts
    ensures rowCounts[..] == Counts(a, n, n)
  {
    var r := 0;
    while r < n
      invariant 0 <= r <= n
      invariant rowCounts[..] == Counts(a, n, r)
    {
      assert Counts(a, n, r + 1) == CountRow(a, n, r, a.rowP[r + 1], Counts(a, n, r));
      CountRowStep(rowP, colP, a, n, r, rowCounts);
      r := r + 1;
    }
  }

  /** `symRowP` (lines 340-341) into a fresh array of n + 1 offsets. */
  method PrefixPass(rowCounts: array<int>) returns (symRowP: array<int>)
    ensures fresh(symRowP)
    ensures symRowP[..] == PrefixSums(rowCounts[..])
  {
    ghost var s := PrefixSums(rowCounts[..]);
    symRowP := new int[rowCounts.Length + 1](j => 0);
    var j := 0;
    while j < rowCounts.Length
      invariant 0 <= j <= rowCounts.Length
      invariant forall t :: 0 <= t <= j ==> symRowP[t] == s[t]
    {
      symRowP[j + 1] := symRowP[j] + rowCounts[j];
      j := j + 1;
    }
    assert symRowP[..] == s;
  }

  /** Once an entry of row r fails, pass 2 over the row fails with the same error. */
  lemma {:induction false} PlaceRowStopped(a: Csr, n: nat, s: seq<int>, r: nat, i: nat, j: nat, st: Placement, e: SymError)
    requires Valid(a, n) && r < n && i <= j <= |a.colP|
    requires |s| == n + 1 && |st.offset| == n && |st.col| == |st.val|
    requires a.rowP[r] < i
    requires PlaceRow(a, n, s, r, i, st) == Err(e)
    ensures PlaceRow(a, n, s, r, j, st) == Err(e)
    decreases j - i
  {
    if i < j {
      PlaceRowStopped(a, n, s, r, i, j - 1, st, e);
    }
  }

  /** Once a row fails, pass 2 over all later rows fails with the same error. */
  lemma {:induction false} PassTwoStopped(a: Csr, n: nat, s: seq<int>, r: nat, r': nat, total: nat, e: SymError)
    requires Valid(a, n) && r <= r' <= n && |s| == n + 1
    requires PassTwo(a, n, s, r, total) == Err(e)
    ensures PassTwo(a, n, s, r', total) == Err(e)
    decreases r' - r
  {
    if r < r' {
      PassTwoStopped(a, n, s, r, r' - 1, total, e);
    }
  }

  /** The arrays pass 2 writes are distinct from each other and from those it reads. */
  predicate Separate(rowP: array<int>, colP: array<int>, valP: array<real>, symRowP: array<int>,
                     offset: array<int>, symColP: array<int>, symValP: array<real>)
  {
    && offset != symColP && symValP != valP
    && offset != rowP && offset != colP && offset != symRowP
    && symColP != rowP && symColP != colP && symColP != symRowP
  }

  /** Pass 2 for entry i of row r (lines 346-382), on the `offset`, `symColP` and `symValP` arrays. */
  method PlaceEntryStep(rowP: array<int>, colP: array<int>, valP: array<real>, ghost a: Csr, n: nat,
                        symRowP: array<int>, r: nat, i: nat,
                        offset: array<int>, symColP: array<int>, symValP: array<real>)
    returns (failure: Option<SymError>)
    requires Valid(a, n) && rowP[..] == a.rowP && colP[..] == a.colP && valP[..] == a.valP
    requires r < n && i < colP.Length && symRowP.Length == n + 1
    requires offset.Length == n && symColP.Length == symValP.Length
    requires Separate(rowP, colP, valP, symRowP, offset, symColP, symValP)
    modifies offset, symColP, symValP
    ensures var res := PlaceEntry(a, n, symRowP[..], r, i, Placement(old(offset[..]), old(symColP[..]), old(symValP[..])));
            match failure
            case None => res == Ok(Placement(offset[..], symColP[..], symValP[..]))
            case Some(e) => res == Err(e)
  {
    var c := colP[i];
    var m := rowP[c];
    if m < 0 || m >= colP.Length {
      return Some(ReadOutOfRange(m));
    }
    var present := colP[m] == r;
    var p := symRowP[r] + offset[r];
    var q := symRowP[c] + offset[c];
    if r < c && (p < 0 || p >= symColP.Length) {
      return Some(WriteOutOfRange(p));
    }
    if r < c && (q < 0 || q >= symColP.Length) {
      return Some(WriteOutOfRange(q));
    }
    var v := if present then valP[i] + valP[m] else valP[i];
    PlaceWrites(offset, symColP, symValP, r, c, p, q, v, present);
    return None;
  }

  /** The writes of lines 362-381 for one entry, on the three arrays of pass 2. */
  method PlaceWrites(offset: array<int>, symColP: array<int>, symValP: array<real>,
                     r: nat, c: nat, p: int, q: int, v: real, present: bool)
    requires offset != symColP
    requires r < offset.Length && c < offset.Length && symColP.Length == symValP.Length
    requires r < c ==> 0 <= p < symColP.Length && 0 <= q < symColP.Length
    modifies offset, symColP, symValP
    ensures Placement(offset[..], symColP[..], symValP[..])
         == Placed(Placement(old(offset[..]), old(symColP[..]), old(symValP[..])), r, c, p, q, v, present)
  {
    if r < c {
      symColP[p] := c;
      symColP[q] := r;
      symValP[p] := v;
      symValP[q] := v;
    }
    if !present || r < c {
      offset[r] := offset[r] + 1;
      if c != r {
        offset[c] := offset[c] + 1;
      }
    }
  }

  /** Pass 2 over row r (lines 346-382); the first failing entry stops it. */
  method PlaceRowStep(rowP: array<int>, colP: array<int>, valP: array<real>, ghost a: Csr, n: nat,
                      symRowP: array<int>, r: nat,
                      offset: array<int>, symColP: array<int>, symValP: array<real>)
    returns (failure: Option<SymError>)
    requires Valid(a, n) && rowP[..] == a.rowP && colP[..] == a.colP && valP[..] == a.valP
    requires r < n && symRowP.Length == n + 1
    requires offset.Length == n && symColP.Length == symValP.Length
    requires Separate(rowP, colP, valP, symRowP, offset, symColP, symValP)
    modifies offset, symColP, symValP
    ensures var res := PlaceRow(a, n, symRowP[..], r, a.rowP[r + 1], Placement(old(offset[..]), old(symColP[..]), old(symValP[..])));
            match failure
            case None => res == Ok(Placement(offset[..], symColP[..], symValP[..]))
            case Some(e) => res == Err(e)
  {
    ghost var s := symRowP[..];
    ghost var start := Placement(offset[..], symColP[..], symValP[..]);
    var i := rowP[r];
    while i < rowP[r + 1]
      invariant a.rowP[r] <= i <= |a.colP|
      invariant i == a.rowP[r] || i <= a.rowP[r + 1]
      invariant PlaceRow(a, n, s, r, i, start) == Ok(Placement(offset[..], symColP[..], symValP[..]))
    {
      ghost var cur := Placement(offset[..], symColP[..], symValP[..]);
      assert PlaceRow(a, n, s, r, i + 1, start) == PlaceEntry(a, n, s, r, i, cur);
      failure := PlaceEntryStep(rowP, colP, valP, a, n, symRowP, r, i, offset, symColP, symValP);
      if failure.Some? {
        PlaceRowStopped(a, n, s, r, i + 1, a.rowP[r + 1], start, failure.value);
        return;
      }
      i := i + 1;
    }
    if i != a.rowP[r + 1] {
      assert PlaceRow(a, n, s, r, a.rowP[r + 1], start) == Ok(start) == PlaceRow(a, n, s, r, i, start);
    }
    return None;
  }

  /** Pass 2 (lines 345-383) into fresh `offset`, `symColP` and `symValP` arrays; `symValP` is returned. */
  method PlacePass(rowP: array<int>, colP: array<int>, valP: array<real>, ghost a: Csr, n: nat,
                   symRowP: array<int>, total: nat)
    returns (res: Result<array<real>, SymError>)
    requires Valid(a, n) && rowP[..] == a.rowP && colP[..] == a.colP && valP[..] == a.valP
    requires symRowP.Length == n + 1
    ensures var placed := PassTwo(a, n, symRowP[..], n, total);
            match res
            case Ok(symValP) => fresh(symValP) && placed.Ok? && symValP[..] == placed.value.val
            case Err(e) => placed == Err(e)
  {
    var offset := new int[n](j => 0);
    var symColP := new int[total](j => 0);
    var symValP := new real[total](j => 0.0);
    assert Placement(offset[..], symColP[..], symValP[..]) == InitialPlacement(n, total);
    var failure := PlaceRows(rowP, colP, valP, a, n, symRowP, total, offset, symColP, symValP);
    if failure.Some? {
      return Err(failure.value);
    }
    return Ok(symValP);
  }

  /** The loop of pass 2 over the rows, from the initial placement; the first failing row stops it. */
  method PlaceRows(rowP: array<int>, colP: array<int>, valP: array<real>, ghost a: Csr, n: nat,
                   symRowP: array<int>, total: nat,
                   offset: array<int>, symColP: array<int>, symValP: array<real>)
    returns (failure: Option<SymError>)
    requires Valid(a, n) && rowP[..] == a.rowP && colP[..] == a.colP && valP[..] == a.valP
    requires symRowP.Length == n + 1
    requires Separate(rowP, colP, valP, symRowP, offset, symColP, symValP)
    requires Placement(offset[..], symColP[..], symValP[..]) == InitialPlacement(n, total)
    modifies offset, symColP, symValP
    ensures var placed := PassTwo(a, n, symRowP[..], n, total);
            match failure
            case None => placed == Ok(Placement(offset[..], symColP[..], symValP[..]))
            case Some(e) => placed == Err(e)
  {
    ghost var s := symRowP[..];
    var r := 0;
    while r < n
      invariant 0 <= r <= n
      invariant PassTwo(a, n, s, r, total) == Ok(Placement(offset[..], symColP[..], symValP[..]))
    {
      ghost var cur := Placement(offset[..], symColP[..], symValP[..]);
      assert PassTwo(a, n, s, r + 1, total) == PlaceRow(a, n, s, r, a.rowP[r + 1], cur);
      failure := PlaceRowStep(rowP, colP, valP, a, n, symRowP, r, offset, symColP, symValP);
      if failure.Some? {
        PassTwoStopped(a, n, s, r + 1, n, total, failure.value);
        return;
      }
      r := r + 1;
    }
    return None;
  }

  /** `symmetrized` (lines 310-391) on arrays: the three passes, then the halving of line 386. */
  method SymmetrizedValues(rowP: array<int>, colP: array<int>, valP: array<real>, ghost a: Csr, n: nat)
    returns (res: Result<array<real>, SymError>)
    requires Valid(a, n) && rowP[..] == a.rowP && colP[..] == a.colP && valP[..] == a.valP
    ensures match res
            case Ok(symValP) => fresh(symValP) && Symmetrized(a, n) == Ok(symValP[..])
            case Err(e) => Symmetrized(a, n) == Err(e)
  {
    var rowCounts := CountPass(rowP, colP, a, n);
    var numElements := SumInt(rowCounts[..]);
    var symRowP := PrefixPass(rowCounts);
    var placed := PlacePass(rowP, colP, valP, a, n, symRowP, numElements);
    if placed.Err? {
      return Err(placed.error);
    }
    var symValP := placed.value;
    DivideInPlace(symValP, 2.0);
    return Ok(symValP);
  }
}
