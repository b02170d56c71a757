/**
 * A worked instance of `symmetrized`: three points, each stored with its two
 * other points as neighbours (k = 2) and every value 0.5, so the input is
 * already symmetric and holds mass 3. Rows are stored out of column order, so
 * the first slot of a row is not always the mirror the second pass looks for.
 */
module SymmetrizeExample {
  import opened Common
  import opened Symmetrize

  const Ring: Csr := Csr([0, 2, 4, 6], [2, 1, 0, 2, 0, 1], [0.5, 0.5, 0.5, 0.5, 0.5, 0.5])
  const RingOffsets: seq<int> := [0, 2, 4, 6]

  lemma RingValid()
    ensures Valid(Ring, 3)
  {
  }

  lemma RingRow0()
    ensures Valid(Ring, 3) && HasMirror(Ring, 3, 0, 2) && HasMirror(Ring, 3, 0, 1)
    ensures CountRow(Ring, 3, 0, 2, [0, 0, 0]) == [2, 0, 0]
  {
    RingValid();
    assert Ring.colP[4] == 0 && Ring.colP[2] == 0;
    assert CountRow(Ring, 3, 0, 1, [0, 0, 0]) == [1, 0, 0];
  }

  lemma RingRow1()
    ensures Valid(Ring, 3) && HasMirror(Ring, 3, 1, 0) && HasMirror(Ring, 3, 1, 2)
    ensures CountRow(Ring, 3, 1, 4, [2, 0, 0]) == [2, 2, 0]
  {
    RingValid();
    assert Ring.colP[1] == 1 && Ring.colP[5] == 1;
    assert CountRow(Ring, 3, 1, 3, [2, 0, 0]) == [2, 1, 0];
  }

  lemma RingRow2()
    ensures Valid(Ring, 3) && HasMirror(Ring, 3, 2, 0) && HasMirror(Ring, 3, 2, 1)
    ensures CountRow(Ring, 3, 2, 6, [2, 2, 0]) == [2, 2, 2]
  {
    RingValid();
    assert Ring.colP[0] == 2 && Ring.colP[3] == 2;
    assert CountRow(Ring, 3, 2, 5, [2, 2, 0]) == [2, 2, 1];
  }

  /** Every entry has its mirror, so pass 1 counts each row's two entries once. */
  lemma RingCounts()
    ensures Valid(Ring, 3) && Counts(Ring, 3, 3) == [2, 2, 2]
  {
    RingRow0();
    RingRow1();
    RingRow2();
    assert Zeros(3) == [0, 0, 0];
    assert Counts(Ring, 3, 1) == [2, 0, 0];
    assert Counts(Ring, 3, 2) == [2, 2, 0];
  }

  lemma RingLayout()
    ensures Valid(Ring, 3) && NumElements(Ring, 3) == 6 && PrefixSums(Counts(Ring, 3, 3)) == RingOffsets
  {
    RingCounts();
    var c := [2, 2, 2];
    assert c[..2][..1][..0] == [];
    assert SumInt(c[..1]) == 2;
    assert c[..2][..1] == c[..1];
    assert SumInt(c[..2]) == 4;
    assert SumInt(c) == 6;
    var p := PrefixSums(c);
    assert p[0] == 0 && p[1] == 2 && p[2] == 4 && p[3] == 6;
  }

  lemma RingEntry0()
    ensures Valid(Ring, 3)
    ensures PlaceEntry(Ring, 3, RingOffsets, 0, 0, Placement([0, 0, 0], [0, 0, 0, 0, 0, 0], [0.0, 0.0, 0.0, 0.0, 0.0, 0.0]))
         == Ok(Placement([1, 0, 1], [2, 0, 0, 0, 0, 0], [1.0, 0.0, 0.0, 0.0, 1.0, 0.0]))
  {
    RingValid();
    var e := PlaceEntry(Ring, 3, RingOffsets, 0, 0, Placement([0, 0, 0], [0, 0, 0, 0, 0, 0], [0.0, 0.0, 0.0, 0.0, 0.0, 0.0]));
    assert e.Ok? && e.value.offset == [1, 0, 1] && e.value.col == [2, 0, 0, 0, 0, 0] && e.value.val == [1.0, 0.0, 0.0, 0.0, 1.0, 0.0];
  }

  lemma RingEntry1()
    ensures Valid(Ring, 3)
    ensures PlaceEntry(Ring, 3, RingOffsets, 0, 1, Placement([1, 0, 1], [2, 0, 0, 0, 0, 0], [1.0, 0.0, 0.0, 0.0, 1.0, 0.0]))
         == Ok(Placement([2, 1, 1], [2, 1, 0, 0, 0, 0], [1.0, 1.0, 1.0, 0.0, 1.0, 0.0]))
  {
    RingValid();
    var e := PlaceEntry(Ring, 3, RingOffsets, 0, 1, Placement([1, 0, 1], [2, 0, 0, 0, 0, 0], [1.0, 0.0, 0.0, 0.0, 1.0, 0.0]));
    assert e.Ok? && e.value.offset == [2, 1, 1] && e.value.col == [2, 1, 0, 0, 0, 0] && e.value.val == [1.0, 1.0, 1.0, 0.0, 1.0, 0.0];
  }

  lemma RingEntry2()
    ensures Valid(Ring, 3)
    ensures PlaceEntry(Ring, 3, RingOffsets, 1, 2, Placement([2, 1, 1], [2, 1, 0, 0, 0, 0], [1.0, 1.0, 1.0, 0.0, 1.0, 0.0]))
         == Ok(Placement([3, 2, 1], [2, 1, 0, 0, 0, 0], [1.0, 1.0, 1.0, 0.0, 1.0, 0.0]))
  {
    RingValid();
    var e := PlaceEntry(Ring, 3, RingOffsets, 1, 2, Placement([2, 1, 1], [2, 1, 0, 0, 0, 0], [1.0, 1.0, 1.0, 0.0, 1.0, 0.0]));
    assert e.Ok? && e.value.offset == [3, 2, 1] && e.value.col == [2, 1, 0, 0, 0, 0] && e.value.val == [1.0, 1.0, 1.0, 0.0, 1.0, 0.0];
  }

  lemma RingEntry3()
    ensures Valid(Ring, 3)
    ensures PlaceEntry(Ring, 3, RingOffsets, 1, 3, Placement([3, 2, 1], [2, 1, 0, 0, 0, 0], [1.0, 1.0, 1.0, 0.0, 1.0, 0.0]))
         == Ok(Placement([3, 3, 2], [2, 1, 0, 0, 2, 1], [1.0, 1.0, 1.0, 0.0, 0.5, 0.5]))
  {
    RingValid();
    var e := PlaceEntry(Ring, 3, RingOffsets, 1, 3, Placement([3, 2, 1], [2, 1, 0, 0, 0, 0], [1.0, 1.0, 1.0, 0.0, 1.0, 0.0]));
    assert e.Ok? && e.value.offset == [3, 3, 2] && e.value.col == [2, 1, 0, 0, 2, 1] && e.value.val == [1.0, 1.0, 1.0, 0.0, 0.5, 0.5];
  }

  lemma RingEntry4()
    ensures Valid(Ring, 3)
    ensures PlaceEntry(Ring, 3, RingOffsets, 2, 4, Placement([3, 3, 2], [2, 1, 0, 0, 2, 1], [1.0, 1.0, 1.0, 0.0, 0.5, 0.5]))
         == Ok(Placement([3, 3, 2], [2, 1, 0, 0, 2, 1], [1.0, 1.0, 1.0, 0.0, 0.5, 0.5]))
  {
    RingValid();
    var e := PlaceEntry(Ring, 3, RingOffsets, 2, 4, Placement([3, 3, 2], [2, 1, 0, 0, 2, 1], [1.0, 1.0, 1.0, 0.0, 0.5, 0.5]));
    assert e.Ok? && e.value.offset == [3, 3, 2] && e.value.col == [2, 1, 0, 0, 2, 1] && e.value.val == [1.0, 1.0, 1.0, 0.0, 0.5, 0.5];
  }

  lemma RingEntry5()
    ensures Valid(Ring, 3)
    ensures PlaceEntry(Ring, 3, RingOffsets, 2, 5, Placement([3, 3, 2], [2, 1, 0, 0, 2, 1], [1.0, 1.0, 1.0, 0.0, 0.5, 0.5]))
         == Ok(Placement([3, 4, 3], [2, 1, 0, 0, 2, 1], [1.0, 1.0, 1.0, 0.0, 0.5, 0.5]))
  {
    RingValid();
    var e := PlaceEntry(Ring, 3, RingOffsets, 2, 5, Placement([3, 3, 2], [2, 1, 0, 0, 2, 1], [1.0, 1.0, 1.0, 0.0, 0.5, 0.5]));
    assert e.Ok? && e.value.offset == [3, 4, 3] && e.value.col == [2, 1, 0, 0, 2, 1] && e.value.val == [1.0, 1.0, 1.0, 0.0, 0.5, 0.5];
  }

  lemma RingPlaced()
    ensures Valid(Ring, 3)
    ensures PassTwo(Ring, 3, RingOffsets, 3, 6) == Ok(Placement([3, 4, 3], [2, 1, 0, 0, 2, 1], [1.0, 1.0, 1.0, 0.0, 0.5, 0.5]))
  {
    RingValid();
    assert InitialPlacement(3, 6) == Placement([0, 0, 0], [0, 0, 0, 0, 0, 0], [0.0, 0.0, 0.0, 0.0, 0.0, 0.0]);
    RingEntry0();
    RingEntry1();
    assert PassTwo(Ring, 3, RingOffsets, 1, 6) == Ok(Placement([2, 1, 1], [2, 1, 0, 0, 0, 0], [1.0, 1.0, 1.0, 0.0, 1.0, 0.0]));
    RingEntry2();
    RingEntry3();
    assert PassTwo(Ring, 3, RingOffsets, 2, 6) == Ok(Placement([3, 3, 2], [2, 1, 0, 0, 2, 1], [1.0, 1.0, 1.0, 0.0, 0.5, 0.5]));
    RingEntry4();
    RingEntry5();
  }

  lemma RingHalved()
    ensures DivideAll([1.0, 1.0, 1.0, 0.0, 0.5, 0.5], 2.0) == [0.5, 0.5, 0.5, 0.0, 0.25, 0.25]
  {
    var h := DivideAll([1.0, 1.0, 1.0, 0.0, 0.5, 0.5], 2.0);
    assert h[0] == 0.5 && h[1] == 0.5 && h[2] == 0.5 && h[3] == 0.0 && h[4] == 0.25 && h[5] == 0.25;
  }

  /** Every stored entry of the ring has its mirror. */
  lemma RingIsSymmetric()
    ensures Valid(Ring, 3)
    ensures forall i :: 0 <= i < 6 ==> HasMirror(Ring, 3, if i < 2 then 0 else if i < 4 then 1 else 2, Ring.colP[i])
  {
    RingRow0();
    RingRow1();
    RingRow2();
  }

  /** Six values summed one at a time. */
  lemma SumOfSix(s: seq<real>)
    requires |s| == 6
    ensures Sum(s) == s[0] + s[1] + s[2] + s[3] + s[4] + s[5]
  {
    assert s[..1][..0] == [];
    assert Sum(s[..1]) == s[0];
    assert s[..2][..1] == s[..1];
    assert Sum(s[..2]) == s[0] + s[1];
    assert s[..3][..2] == s[..2];
    assert Sum(s[..3]) == s[0] + s[1] + s[2];
    assert s[..4][..3] == s[..3];
    assert Sum(s[..4]) == s[0] + s[1] + s[2] + s[3];
    assert s[..5][..4] == s[..4];
    assert Sum(s[..5]) == s[0] + s[1] + s[2] + s[3] + s[4];
    assert s[..5] == s[..|s| - 1];
  }

  /**
   * The ring holds mass 3, yet `symmetrized` returns mass 2: slot 3 (the second
   * entry of row 1) is never written, and the pair (1, 2) / (2, 1) gets half its
   * value because the mirror of (1, 2) is not the first entry of row 2.
   */
  lemma RingSymmetrized()
    ensures Valid(Ring, 3)
    ensures Sum(Ring.valP) == 3.0
    ensures Symmetrized(Ring, 3).Ok? && Symmetrized(Ring, 3).value == [0.5, 0.5, 0.5, 0.0, 0.25, 0.25]
    ensures Sum(Symmetrized(Ring, 3).value) == 2.0
  {
    RingLayout();
    RingPlaced();
    RingHalved();
    SumOfSix(Ring.valP);
    SumOfSix([0.5, 0.5, 0.5, 0.0, 0.25, 0.25]);
  }
}
