/**
 * Shared vocabulary of the model: a result type standing for the exceptions the
 * Java code throws, sums over sequences (the INDArray `sum` reductions), the
 * element-wise scalings the code applies with `muli`/`divi`, and the few facts of
 * arithmetic the row layout of the compressed-sparse-row arrays needs.
 */
module Common {

  /** A computation that either produces a value or stops with the error the source throws. */
  datatype Result<T, E> = Ok(value: T) | Err(error: E)

  /** A value that may be absent; a step that either completes or reports its error. */
  datatype Option<T> = None | Some(value: T)

  /** Sum of a sequence of reals. */
  function Sum(s: seq<real>): real
  {
    if |s| == 0 then 0.0 else Sum(s[..|s| - 1]) + s[|s| - 1]
  }

  /** Sum of a sequence of integers. */
  function SumInt(s: seq<int>): int
  {
    if |s| == 0 then 0 else SumInt(s[..|s| - 1]) + s[|s| - 1]
  }

  lemma {:induction false} SumAppend(a: seq<real>, b: seq<real>)
    ensures Sum(a + b) == Sum(a) + Sum(b)
  {
    if |b| == 0 {
      assert a + b == a;
    } else {
      SumAppend(a, b[..|b| - 1]);
      assert (a + b)[..|a + b| - 1] == a + b[..|b| - 1];
    }
  }

  /** Adding d to a single element adds d to the total. */
  lemma {:induction false} SumIntAdd(s: seq<int>, j: int, d: int)
    requires 0 <= j < |s|
    ensures SumInt(s[j := s[j] + d]) == SumInt(s) + d
  {
    var t := s[j := s[j] + d];
    if j < |s| - 1 {
      SumIntAdd(s[..|s| - 1], j, d);
      assert t[..|t| - 1] == s[..|s| - 1][j := s[j] + d];
    } else {
      assert t[..|t| - 1] == s[..|s| - 1];
    }
  }

  /** Adding one at r and then d at c adds 1 + d to the total. */
  lemma SumIntAddTwice(s: seq<int>, r: nat, c: nat, d: int)
    requires r < |s| && c < |s|
    ensures var once := s[r := s[r] + 1];
            SumInt(once[c := once[c] + d]) == SumInt(s) + 1 + d
  {
    SumIntAdd(s, r, 1);
    SumIntAdd(s[r := s[r] + 1], c, d);
  }

  /** A prefix of non-negative integers never sums to more than a longer prefix. */
  lemma {:induction false} SumIntPrefixMonotone(s: seq<int>, i: nat, j: nat)
    requires i <= j <= |s|
    requires forall x :: 0 <= x < |s| ==> s[x] >= 0
    ensures 0 <= SumInt(s[..i]) <= SumInt(s[..j])
  {
    if i < j {
      SumIntPrefixMonotone(s, i, j - 1);
      assert s[..j][..j - 1] == s[..j - 1];
    } else if i > 0 {
      SumIntPrefixMonotone(s, i - 1, i);
      assert s[..i][..i - 1] == s[..i - 1];
    }
  }

  /** Every element divided by `d` (INDArray `divi` with a scalar). */
  function DivideAll(s: seq<real>, d: real): (r: seq<real>)
    requires d != 0.0
    ensures |r| == |s|
    ensures forall j :: 0 <= j < |s| ==> r[j] * d == s[j]
  {
    var inv := 1.0 / d;
    seq(|s|, j requires 0 <= j < |s| => s[j] * inv)
  }

  /** Every element multiplied by `c` (INDArray `muli` with a scalar). */
  function ScaleAll(s: seq<real>, c: real): (r: seq<real>)
    ensures |r| == |s|
    ensures forall j :: 0 <= j < |s| ==> r[j] == s[j] * c
  {
    seq(|s|, j requires 0 <= j < |s| => s[j] * c)
  }

  lemma {:induction false} SumDivideAll(s: seq<real>, d: real)
    requires d != 0.0
    ensures Sum(DivideAll(s, d)) == Sum(s) / d
  {
    if |s| > 0 {
      var front := s[..|s| - 1];
      SumDivideAll(front, d);
      assert forall j :: 0 <= j < |front| ==> DivideAll(s, d)[..|s| - 1][j] == DivideAll(front, d)[j];
      assert DivideAll(s, d)[..|s| - 1] == DivideAll(front, d);
      assert s[|s| - 1] * (1.0 / d) == s[|s| - 1] / d;
    }
  }

  lemma {:induction false} SumScaleAll(s: seq<real>, c: real)
    ensures Sum(ScaleAll(s, c)) == Sum(s) * c
  {
    if |s| > 0 {
      var front := s[..|s| - 1];
      SumScaleAll(front, c);
      assert forall j :: 0 <= j < |front| ==> ScaleAll(s, c)[..|s| - 1][j] == ScaleAll(front, c)[j];
      assert ScaleAll(s, c)[..|s| - 1] == ScaleAll(front, c);
    }
  }

  lemma MulRearrange(a: real, b: real, c: real)
    ensures a * (b * c) == b * a * c
  {
  }

  lemma DivideCancels(x: real, z: real, c: real)
    requires z != 0.0 && x == c * z
    ensures x / z == c
  {
  }

  /** A non-empty sequence of positive reals has a positive sum. */
  lemma {:induction false} SumPositive(s: seq<real>)
    requires |s| > 0
    requires forall j :: 0 <= j < |s| ==> s[j] > 0.0
    ensures Sum(s) > 0.0
  {
    if |s| > 1 {
      SumPositive(s[..|s| - 1]);
    }
  }

  /** Scaling by a non-zero factor and dividing by it again gives back the original values. */
  lemma ScaleThenDivide(s: seq<real>, c: real)
    requires c != 0.0
    ensures DivideAll(ScaleAll(s, c), c) == s
  {
    assert forall j :: 0 <= j < |s| ==> DivideAll(ScaleAll(s, c), c)[j] == s[j];
  }

  /** Dividing non-negative values by a positive number keeps them non-negative. */
  lemma DivideAllNonNegative(s: seq<real>, d: real)
    requires d > 0.0
    requires forall j :: 0 <= j < |s| ==> 0.0 <= s[j]
    ensures forall j :: 0 <= j < |s| ==> 0.0 <= DivideAll(s, d)[j]
  {
    var inv := 1.0 / d;
    assert inv > 0.0;
    forall j | 0 <= j < |s|
      ensures 0.0 <= DivideAll(s, d)[j]
    {
      MulNonNegative(s[j], inv);
    }
  }

  lemma MulNonNegative(x: real, y: real)
    requires 0.0 <= x && 0.0 <= y
    ensures 0.0 <= x * y
  {}

  /** A slice that lies inside the first part of a concatenation is a slice of that part. */
  lemma SliceOfAppend<T>(a: seq<T>, b: seq<T>, lo: int, hi: int)
    requires 0 <= lo <= hi <= |a|
    ensures (a + b)[lo..hi] == a[lo..hi]
  {
  }

  /** The first i + 1 elements are the first i followed by element i. */
  lemma PrefixExtend<T>(s: seq<T>, i: nat)
    requires i < |s|
    ensures s[..i + 1] == s[..i] + [s[i]]
    ensures s[..i + 1][..i] == s[..i] && s[..i + 1][i] == s[i]
  {}

  /**
   * Writing `mid` at `base`, right after a prefix that was already in place,
   * extends that prefix by `mid`.
   */
  lemma PrefixAfterStore<T>(before: seq<T>, after: seq<T>, base: nat, mid: seq<T>, prefix: seq<T>)
    requires prefix <= before && |prefix| == base && base + |mid| <= |before|
    requires after == before[..base] + mid + before[base + |mid|..]
    ensures prefix + mid <= after
  {
    assert before[..base] == prefix;
    assert (prefix + mid) == after[..base + |mid|];
  }

  /** One more element of `mid` written over `orig` at offset base + l. */
  lemma SpliceStep<T>(orig: seq<T>, cur: seq<T>, base: nat, mid: seq<T>, l: nat)
    requires l < |mid| && base + |mid| <= |orig|
    requires cur == orig[..base] + mid[..l] + orig[base + l..]
    ensures cur[base + l := mid[l]] == orig[..base] + mid[..l + 1] + orig[base + l + 1..]
  {
    var next := orig[..base] + mid[..l + 1] + orig[base + l + 1..];
    assert |cur[base + l := mid[l]]| == |next|;
    forall j | 0 <= j < |next|
      ensures cur[base + l := mid[l]][j] == next[j]
    {
    }
  }

  /** A prefix of `a` is a prefix of `a` followed by anything. */
  lemma PrefixOfAppend<T>(p: seq<T>, a: seq<T>, b: seq<T>)
    requires p <= a
    ensures p <= a + b
  {
    assert (a + b)[..|p|] == a[..|p|];
  }

  /** One more row of `k` entries. */
  lemma MulSucc(n: nat, k: nat)
    ensures (n + 1) * k == n * k + k
  {}

  lemma MulMonotone(a: nat, b: nat, c: nat)
    requires a <= b
    ensures a * c <= b * c
  {}

  /** Rows laid end to end, first row first: the layout of the value and column arrays of a sparse matrix. */
  function Flatten<T>(rows: seq<seq<T>>): seq<T>
  {
    if |rows| == 0 then [] else Flatten(rows[..|rows| - 1]) + rows[|rows| - 1]
  }

  /** Rows of k entries each flatten to |rows| * k entries. */
  lemma {:induction false} FlattenLength<T>(rows: seq<seq<T>>, k: nat)
    requires forall i :: 0 <= i < |rows| ==> |rows[i]| == k
    ensures |Flatten(rows)| == |rows| * k
  {
    if |rows| > 0 {
      var n := |rows| - 1;
      FlattenLength(rows[..n], k);
      MulSucc(n, k);
    }
  }

  /** The first i + 1 rows flatten to the first i rows followed by row i. */
  lemma FlattenExtend<T>(rows: seq<seq<T>>, i: nat)
    requires i < |rows|
    ensures Flatten(rows[..i + 1]) == Flatten(rows[..i]) + rows[i]
  {
    PrefixExtend(rows, i);
  }

  /** Row i sits right after the rows before it. */
  lemma {:induction false} FlattenRow<T>(rows: seq<seq<T>>, i: nat)
    requires i < |rows|
    ensures Flatten(rows[..i]) + rows[i] <= Flatten(rows)
  {
    var n := |rows| - 1;
    if i < n {
      FlattenRow(rows[..n], i);
      assert rows[..n][..i] == rows[..i] && rows[..n][i] == rows[i];
      PrefixOfAppend(Flatten(rows[..i]) + rows[i], Flatten(rows[..n]), rows[n]);
    } else {
      assert rows[..n] == rows[..i];
    }
  }

  /** Rows of positive values flatten to positive values. */
  lemma {:induction false} FlattenPositive(rows: seq<seq<real>>)
    requires forall i, l :: 0 <= i < |rows| && 0 <= l < |rows[i]| ==> rows[i][l] > 0.0
    ensures forall j :: 0 <= j < |Flatten(rows)| ==> Flatten(rows)[j] > 0.0
  {
    if |rows| > 0 {
      var n := |rows| - 1;
      FlattenPositive(rows[..n]);
      var front := Flatten(rows[..n]);
      forall j | 0 <= j < |front + rows[n]|
        ensures (front + rows[n])[j] > 0.0
      {
        if j >= |front| {
          assert (front + rows[n])[j] == rows[n][j - |front|];
        }
      }
    }
  }

  /** Rows of integers in [lo, hi) flatten to integers in [lo, hi). */
  lemma {:induction false} FlattenInRange(rows: seq<seq<int>>, lo: int, hi: int)
    requires forall i, l :: 0 <= i < |rows| && 0 <= l < |rows[i]| ==> lo <= rows[i][l] < hi
    ensures forall j :: 0 <= j < |Flatten(rows)| ==> lo <= Flatten(rows)[j] < hi
  {
    if |rows| > 0 {
      var n := |rows| - 1;
      FlattenInRange(rows[..n], lo, hi);
      var front := Flatten(rows[..n]);
      forall j | 0 <= j < |front + rows[n]|
        ensures lo <= (front + rows[n])[j] < hi
      {
        if j >= |front| {
          assert (front + rows[n])[j] == rows[n][j - |front|];
        }
      }
    }
  }

  /** Rows that each sum to 1 flatten to values summing to the number of rows. */
  lemma {:induction false} FlattenSumOfUnitRows(rows: seq<seq<real>>)
    requires forall i :: 0 <= i < |rows| ==> Sum(rows[i]) == 1.0
    ensures Sum(Flatten(rows)) == |rows| as real
  {
    if |rows| > 0 {
      var n := |rows| - 1;
      FlattenSumOfUnitRows(rows[..n]);
      SumAppend(Flatten(rows[..n]), rows[n]);
    }
  }

  /** INDArray `divi` with a scalar: every element divided in place. */
  method DivideInPlace(a: array<real>, d: real)
    requires d != 0.0
    modifies a
    ensures a[..] == DivideAll(old(a[..]), d)
  {
    ghost var target := DivideAll(a[..], d);
    forall j | 0 <= j < a.Length {
      a[j] := a[j] / d;
    }
    assert forall j :: 0 <= j < a.Length ==> a[j] == target[j];
  }

  /** INDArray `muli` with a scalar: every element multiplied in place. */
  method ScaleInPlace(a: array<real>, c: real)
    modifies a
    ensures a[..] == ScaleAll(old(a[..]), c)
  {
    ghost var target := ScaleAll(a[..], c);
    forall j | 0 <= j < a.Length {
      a[j] := a[j] * c;
    }
    assert forall j :: 0 <= j < a.Length ==> a[j] == target[j];
  }
}
