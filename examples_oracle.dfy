/**
 * The four-rectangle example of
 * src/test/java/intersections/IntersectionReporterTest.java, with the ids
 * 1..4 the application assigns, worked through iteration by iteration.
 * Every stored list is a prefix of `FinalResult()`.
 */
module Examples {
  import opened Common
  import opened Sorting
  import opened Rectangles
  import opened Geometry
  import opened Engine

  function Inputs(): seq<Box> {
    [Box(250, 80, 100, 100, 1, None), Box(250, 150, 120, 200, 2, None),
     Box(250, 100, 140, 160, 3, None), Box(350, 190, 160, 140, 4, None)]
  }

  /** The five pairs of round 1, then {1,3,4} and {2,3,4} of round 2. */
  function FinalResult(): seq<Box> {
    [Box(210, 20, 140, 160, 0, Some([1, 3])), Box(190, 40, 160, 140, 0, Some([1, 4])),
     Box(230, 60, 140, 200, 0, Some([2, 3])), Box(210, 130, 160, 200, 0, Some([2, 4])),
     Box(230, 100, 160, 160, 0, Some([3, 4])),
     Box(190, 20, 160, 160, 0, Some([1, 3, 4])), Box(210, 60, 160, 200, 0, Some([2, 3, 4]))]
  }

  lemma InputsWellFormed(I: seq<Box>)
    requires I == Inputs()
    ensures AllWellFormed(I)
  {
  }

  lemma FinalStored(F: seq<Box>)
    requires F == FinalResult()
    ensures AllWellFormed(F) && Stored(F)
  {
  }

  lemma PrefixStored(F: seq<Box>, k: nat)
    requires Stored(F) && k <= |F|
    ensures AllWellFormed(F[..k]) && Stored(F[..k])
  {
    forall m | 0 <= m < k ensures StoredBox(F[..k][m]) {
      assert F[..k][m] == F[m];
    }
  }

  lemma PrefixExtend(F: seq<Box>, k: nat)
    requires k < |F|
    ensures F[..k] + [F[k]] == F[..k + 1]
  {
  }

  lemma PrefixWhole(F: seq<Box>)
    ensures F[..|F|] == F
  {
  }

  lemma PrefixEmpty(F: seq<Box>)
    ensures F[..0] == []
  {
  }

  // One iteration of the inner loop, in each of its three outcomes.

  lemma SkipDisjoint(list: seq<Box>, stored: seq<Box>, i: nat, j: nat)
    requires AllWellFormed(list) && Stored(stored) && i < |list| && j < |list|
    requires !OverlapPresent(list[i], list[j])
    ensures Step(list, stored, i, j) == Ok(stored)
  {
  }

  lemma SkipDuplicate(list: seq<Box>, stored: seq<Box>, i: nat, j: nat, c: Box, k: nat)
    requires AllWellFormed(list) && Stored(stored) && i < |list| && j < |list|
    requires OverlapPresent(list[i], list[j]) && FindIntersection(list[i], list[j]) == Ok(c)
    requires k < |stored| && !IntersectionUnique(stored[k], c)
    ensures Step(list, stored, i, j) == Ok(stored)
  {
  }

  lemma Append(list: seq<Box>, stored: seq<Box>, i: nat, j: nat, c: Box, n: Box)
    requires AllWellFormed(list) && Stored(stored) && i < |list| && j < |list|
    requires OverlapPresent(list[i], list[j]) && FindIntersection(list[i], list[j]) == Ok(c)
    requires AllUnique(stored, c) && Absorb(c, list[i], list[j]) == n
    ensures Step(list, stored, i, j) == Ok(stored + [n])
  {
  }

  /** One iteration of the outer loop. */
  lemma ColsEnd(list: seq<Box>, stored: seq<Box>, i: nat, j: nat, end: nat)
    requires AllWellFormed(list) && Stored(stored) && i < end <= |list| && end <= j
    ensures Cols(list, stored, i, j, end) == Ok(stored)
  {
  }

  lemma RowsEnd(list: seq<Box>, stored: seq<Box>, end: nat)
    requires AllWellFormed(list) && Stored(stored) && end <= |list|
    ensures Rows(list, stored, end, end) == Ok(stored)
  {
  }

  lemma NextRow(list: seq<Box>, stored: seq<Box>, i: nat, end: nat, next: seq<Box>)
    requires AllWellFormed(list) && Stored(stored) && i < end <= |list|
    requires Cols(list, stored, i, list[i].id, end) == Ok(next)
    ensures Rows(list, stored, i, end) == Rows(list, next, i + 1, end)
  {
  }

  lemma SortSingle(a: int)
    ensures SortSeq([a]) == [a]
  {
    assert [a][1..] == [];
  }

  lemma InsertLast(a: int, b: int)
    requires a <= b
    ensures Insert(a, [b]) == [a, b]
  {
  }

  lemma InsertFirst(b: int, c: int)
    requires c < b
    ensures Insert(b, [c]) == [c, b]
  {
    assert [c][1..] == [];
  }

  lemma SortPair(a: int, b: int)
    requires a <= b
    ensures SortSeq([a, b]) == [a, b]
  {
    assert [a, b][1..] == [b];
    SortSingle(b);
    InsertLast(a, b);
  }

  lemma SortDescending(b: int, c: int)
    requires c < b
    ensures SortSeq([b, c]) == [c, b]
  {
    assert [b, c][1..] == [c];
    SortSingle(c);
    InsertFirst(b, c);
  }

  lemma InsertMiddle(a: int, c: int, b: int)
    requires c < a <= b
    ensures Insert(a, [c, b]) == [c, a, b]
  {
    assert [c, b][1..] == [b];
    InsertLast(a, b);
  }

  lemma SortTriple(a: int, b: int, c: int)
    requires c < a < b
    ensures SortSeq([a, b, c]) == [c, a, b]
  {
    assert [a, b, c][1..] == [b, c];
    SortDescending(b, c);
    InsertMiddle(a, c, b);
  }

  lemma UniquePair(a: int, b: int)
    requires a != b
    ensures UniqueAppend([], [a, b]) == [a, b]
  {
    assert [a, b][..1] == [a] && [a][..0] == [];
    assert UniqueAppend([], [a]) == [a];
  }

  lemma UniqueThird(a: int, b: int, c: int)
    requires c != a && c != b
    ensures UniqueAppend([a, b], [c, a]) == [a, b, c]
  {
    assert [c, a][..1] == [c] && [c][..0] == [];
    assert UniqueAppend([a, b], [c]) == [a, b, c];
  }

  /** Round 1: both parents are initial rectangles, so merging only sorts the seeded pair. */
  lemma AbsorbPair(c: Box, a: Box, b: Box, x: int, y: int)
    requires x < y && c.contributors == Some([x, y])
    requires a.contributors.None? && b.contributors.None?
    ensures Absorb(c, a, b) == c
  {
    SortPair(x, y);
  }

  /**
   * Round 2: an empty list takes the pair {x, y} of one parent, then z from
   * the pair {z, x} of the other.
   */
  lemma AbsorbTriple(c: Box, a: Box, b: Box, x: int, y: int, z: int)
    requires z < x < y && c.contributors == Some([])
    requires a.contributors == Some([x, y]) && b.contributors == Some([z, x])
    ensures Absorb(c, a, b) == c.(contributors := Some([z, x, y]))
  {
    UniquePair(x, y);
    SortPair(x, y);
    UniqueThird(x, y, z);
    SortTriple(x, y, z);
  }

  /** One step of the inner loop reaches the next column. */
  lemma NextColumn(list: seq<Box>, stored: seq<Box>, i: nat, j: nat, end: nat, next: seq<Box>)
    requires AllWellFormed(list) && Stored(stored) && i < end <= |list| && j < end
    requires Step(list, stored, i, j) == Ok(next)
    ensures Cols(list, stored, i, j, end) == Cols(list, next, i, j + 1, end)
  {
  }


  lemma OneAOverlap(I: seq<Box>, F: seq<Box>)
    requires I == Inputs() && F == FinalResult()
    ensures !OverlapPresent(I[0], I[1])
  {
  }

  lemma OneA(I: seq<Box>, F: seq<Box>)
    requires I == Inputs() && F == FinalResult()
    ensures Step(I, F[..0], 0, 1) == Ok(F[..0])
  {
    InputsWellFormed(I);
    FinalStored(F);
    PrefixStored(F, 0);
    PrefixStored(F, 5);
    OneAOverlap(I, F);
    SkipDisjoint(I, F[..0], 0, 1);
  }

  lemma OneBOverlap(I: seq<Box>, F: seq<Box>)
    requires I == Inputs() && F == FinalResult()
    ensures OverlapPresent(I[0], I[2])
    ensures FindIntersection(I[0], I[2]) == Ok(Box(210, 20, 140, 160, 0, Some([1, 3])))
  {
  }

  lemma OneBMerge(I: seq<Box>, F: seq<Box>)
    requires I == Inputs() && F == FinalResult()
    ensures Absorb(Box(210, 20, 140, 160, 0, Some([1, 3])), I[0], I[2]) == F[0]
  {
    AbsorbPair(Box(210, 20, 140, 160, 0, Some([1, 3])), I[0], I[2], 1, 3);
  }

  lemma OneBUnique(I: seq<Box>, F: seq<Box>)
    requires I == Inputs() && F == FinalResult()
    ensures AllUnique(F[..0], Box(210, 20, 140, 160, 0, Some([1, 3])))
  {
    FinalStored(F);
    PrefixStored(F, 0);
  }

  lemma OneB(I: seq<Box>, F: seq<Box>)
    requires I == Inputs() && F == FinalResult()
    ensures Step(I, F[..0], 0, 2) == Ok(F[..0] + [F[0]])
  {
    InputsWellFormed(I);
    FinalStored(F);
    PrefixStored(F, 0);
    PrefixStored(F, 5);
    OneBOverlap(I, F);
    OneBMerge(I, F);
    OneBUnique(I, F);
    Append(I, F[..0], 0, 2, Box(210, 20, 140, 160, 0, Some([1, 3])), F[0]);
  }

  lemma OneCOverlap(I: seq<Box>, F: seq<Box>)
    requires I == Inputs() && F == FinalResult()
    ensures OverlapPresent(I[0], I[3])
    ensures FindIntersection(I[0], I[3]) == Ok(Box(190, 40, 160, 140, 0, Some([1, 4])))
  {
  }

  lemma OneCMerge(I: seq<Box>, F: seq<Box>)
    requires I == Inputs() && F == FinalResult()
    ensures Absorb(Box(190, 40, 160, 140, 0, Some([1, 4])), I[0], I[3]) == F[1]
  {
    AbsorbPair(Box(190, 40, 160, 140, 0, Some([1, 4])), I[0], I[3], 1, 4);
  }

  lemma OneCUnique(I: seq<Box>, F: seq<Box>)
    requires I == Inputs() && F == FinalResult()
    ensures AllUnique(F[..1], Box(190, 40, 160, 140, 0, Some([1, 4])))
  {
    FinalStored(F);
    PrefixStored(F, 1);
  }

  lemma OneC(I: seq<Box>, F: seq<Box>)
    requires I == Inputs() && F == FinalResult()
    ensures Step(I, F[..1], 0, 3) == Ok(F[..1] + [F[1]])
  {
    InputsWellFormed(I);
    FinalStored(F);
    PrefixStored(F, 1);
    PrefixStored(F, 5);
    OneCOverlap(I, F);
    OneCMerge(I, F);
    OneCUnique(I, F);
    Append(I, F[..1], 0, 3, Box(190, 40, 160, 140, 0, Some([1, 4])), F[1]);
  }

  lemma OneDOverlap(I: seq<Box>, F: seq<Box>)
    requires I == Inputs() && F == FinalResult()
    ensures OverlapPresent(I[1], I[2])
    ensures FindIntersection(I[1], I[2]) == Ok(Box(230, 60, 140, 200, 0, Some([2, 3])))
  {
  }

  lemma OneDMerge(I: seq<Box>, F: seq<Box>)
    requires I == Inputs() && F == FinalResult()
    ensures Absorb(Box(230, 60, 140, 200, 0, Some([2, 3])), I[1], I[2]) == F[2]
  {
    AbsorbPair(Box(230, 60, 140, 200, 0, Some([2, 3])), I[1], I[2], 2, 3);
  }

  lemma OneDUnique(I: seq<Box>, F: seq<Box>)
    requires I == Inputs() && F == FinalResult()
    ensures AllUnique(F[..2], Box(230, 60, 140, 200, 0, Some([2, 3])))
  {
    FinalStored(F);
    PrefixStored(F, 2);
  }

  lemma OneD(I: seq<Box>, F: seq<Box>)
    requires I == Inputs() && F == FinalResult()
    ensures Step(I, F[..2], 1, 2) == Ok(F[..2] + [F[2]])
  {
    InputsWellFormed(I);
    FinalStored(F);
    PrefixStored(F, 2);
    PrefixStored(F, 5);
    OneDOverlap(I, F);
    OneDMerge(I, F);
    OneDUnique(I, F);
    Append(I, F[..2], 1, 2, Box(230, 60, 140, 200, 0, Some([2, 3])), F[2]);
  }

  lemma OneEOverlap(I: seq<Box>, F: seq<Box>)
    requires I == Inputs() && F == FinalResult()
    ensures OverlapPresent(I[1], I[3])
    ensures FindIntersection(I[1], I[3]) == Ok(Box(210, 130, 160, 200, 0, Some([2, 4])))
  {
  }

  lemma OneEMerge(I: seq<Box>, F: seq<Box>)
    requires I == Inputs() && F == FinalResult()
    ensures Absorb(Box(210, 130, 160, 200, 0, Some([2, 4])), I[1], I[3]) == F[3]
  {
    AbsorbPair(Box(210, 130, 160, 200, 0, Some([2, 4])), I[1], I[3], 2, 4);
  }

  lemma OneEUnique(I: seq<Box>, F: seq<Box>)
    requires I == Inputs() && F == FinalResult()
    ensures AllUnique(F[..3], Box(210, 130, 160, 200, 0, Some([2, 4])))
  {
    FinalStored(F);
    PrefixStored(F, 3);
  }

  lemma OneE(I: seq<Box>, F: seq<Box>)
    requires I == Inputs() && F == FinalResult()
    ensures Step(I, F[..3], 1, 3) == Ok(F[..3] + [F[3]])
  {
    InputsWellFormed(I);
    FinalStored(F);
    PrefixStored(F, 3);
    PrefixStored(F, 5);
    OneEOverlap(I, F);
    OneEMerge(I, F);
    OneEUnique(I, F);
    Append(I, F[..3], 1, 3, Box(210, 130, 160, 200, 0, Some([2, 4])), F[3]);
  }

  lemma OneFOverlap(I: seq<Box>, F: seq<Box>)
    requires I == Inputs() && F == FinalResult()
    ensures OverlapPresent(I[2], I[3])
    ensures FindIntersection(I[2], I[3]) == Ok(Box(230, 100, 160, 160, 0, Some([3, 4])))
  {
  }

  lemma OneFMerge(I: seq<Box>, F: seq<Box>)
    requires I == Inputs() && F == FinalResult()
    ensures Absorb(Box(230, 100, 160, 160, 0, Some([3, 4])), I[2], I[3]) == F[4]
  {
    AbsorbPair(Box(230, 100, 160, 160, 0, Some([3, 4])), I[2], I[3], 3, 4);
  }

  lemma OneFUnique(I: seq<Box>, F: seq<Box>)
    requires I == Inputs() && F == FinalResult()
    ensures AllUnique(F[..4], Box(230, 100, 160, 160, 0, Some([3, 4])))
  {
    FinalStored(F);
    PrefixStored(F, 4);
  }

  lemma OneF(I: seq<Box>, F: seq<Box>)
    requires I == Inputs() && F == FinalResult()
    ensures Step(I, F[..4], 2, 3) == Ok(F[..4] + [F[4]])
  {
    InputsWellFormed(I);
    FinalStored(F);
    PrefixStored(F, 4);
    PrefixStored(F, 5);
    OneFOverlap(I, F);
    OneFMerge(I, F);
    OneFUnique(I, F);
    Append(I, F[..4], 2, 3, Box(230, 100, 160, 160, 0, Some([3, 4])), F[4]);
  }

  lemma TwoAOverlap(I: seq<Box>, F: seq<Box>)
    requires I == Inputs() && F == FinalResult()
    ensures OverlapPresent(F[..5][4], F[..5][0])
    ensures FindIntersection(F[..5][4], F[..5][0]) == Ok(Box(190, 20, 160, 160, 0, Some([])))
  {
  }

  lemma TwoAMerge(I: seq<Box>, F: seq<Box>)
    requires I == Inputs() && F == FinalResult()
    ensures Absorb(Box(190, 20, 160, 160, 0, Some([])), F[..5][4], F[..5][0]) == F[5]
  {
    AbsorbTriple(Box(190, 20, 160, 160, 0, Some([])), F[..5][4], F[..5][0], 3, 4, 1);
  }

  lemma TwoAUnique(I: seq<Box>, F: seq<Box>)
    requires I == Inputs() && F == FinalResult()
    ensures AllUnique(F[..5], Box(190, 20, 160, 160, 0, Some([])))
  {
    FinalStored(F);
    PrefixStored(F, 5);
  }

  lemma TwoA(I: seq<Box>, F: seq<Box>)
    requires I == Inputs() && F == FinalResult()
    ensures Step(F[..5], F[..5], 4, 0) == Ok(F[..5] + [F[5]])
  {
    InputsWellFormed(I);
    FinalStored(F);
    PrefixStored(F, 5);
    PrefixStored(F, 5);
    TwoAOverlap(I, F);
    TwoAMerge(I, F);
    TwoAUnique(I, F);
    Append(F[..5], F[..5], 4, 0, Box(190, 20, 160, 160, 0, Some([])), F[5]);
  }

  lemma TwoBOverlap(I: seq<Box>, F: seq<Box>)
    requires I == Inputs() && F == FinalResult()
    ensures OverlapPresent(F[..5][4], F[..5][1])
    ensures FindIntersection(F[..5][4], F[..5][1]) == Ok(Box(190, 20, 160, 160, 0, Some([])))
  {
  }

  lemma TwoB(I: seq<Box>, F: seq<Box>)
    requires I == Inputs() && F == FinalResult()
    ensures Step(F[..5], F[..6], 4, 1) == Ok(F[..6])
  {
    InputsWellFormed(I);
    FinalStored(F);
    PrefixStored(F, 6);
    PrefixStored(F, 5);
    TwoBOverlap(I, F);
    assert !IntersectionUnique(F[..6][5], Box(190, 20, 160, 160, 0, Some([])));
    SkipDuplicate(F[..5], F[..6], 4, 1, Box(190, 20, 160, 160, 0, Some([])), 5);
  }

  lemma TwoCOverlap(I: seq<Box>, F: seq<Box>)
    requires I == Inputs() && F == FinalResult()
    ensures OverlapPresent(F[..5][4], F[..5][2])
    ensures FindIntersection(F[..5][4], F[..5][2]) == Ok(Box(210, 60, 160, 200, 0, Some([])))
  {
  }

  lemma TwoCMerge(I: seq<Box>, F: seq<Box>)
    requires I == Inputs() && F == FinalResult()
    ensures Absorb(Box(210, 60, 160, 200, 0, Some([])), F[..5][4], F[..5][2]) == F[6]
  {
    AbsorbTriple(Box(210, 60, 160, 200, 0, Some([])), F[..5][4], F[..5][2], 3, 4, 2);
  }

  lemma TwoCUnique(I: seq<Box>, F: seq<Box>)
    requires I == Inputs() && F == FinalResult()
    ensures AllUnique(F[..6], Box(210, 60, 160, 200, 0, Some([])))
  {
    FinalStored(F);
    PrefixStored(F, 6);
  }

  lemma TwoC(I: seq<Box>, F: seq<Box>)
    requires I == Inputs() && F == FinalResult()
    ensures Step(F[..5], F[..6], 4, 2) == Ok(F[..6] + [F[6]])
  {
    InputsWellFormed(I);
    FinalStored(F);
    PrefixStored(F, 6);
    PrefixStored(F, 5);
    TwoCOverlap(I, F);
    TwoCMerge(I, F);
    TwoCUnique(I, F);
    Append(F[..5], F[..6], 4, 2, Box(210, 60, 160, 200, 0, Some([])), F[6]);
  }

  lemma TwoDOverlap(I: seq<Box>, F: seq<Box>)
    requires I == Inputs() && F == FinalResult()
    ensures OverlapPresent(F[..5][4], F[..5][3])
    ensures FindIntersection(F[..5][4], F[..5][3]) == Ok(Box(210, 60, 160, 200, 0, Some([])))
  {
  }

  lemma TwoD(I: seq<Box>, F: seq<Box>)
    requires I == Inputs() && F == FinalResult()
    ensures Step(F[..5], F[..7], 4, 3) == Ok(F[..7])
  {
    InputsWellFormed(I);
    FinalStored(F);
    PrefixStored(F, 7);
    PrefixStored(F, 5);
    TwoDOverlap(I, F);
    assert !IntersectionUnique(F[..7][6], Box(210, 60, 160, 200, 0, Some([])));
    SkipDuplicate(F[..5], F[..7], 4, 3, Box(210, 60, 160, 200, 0, Some([])), 6);
  }

  lemma TwoEOverlap(I: seq<Box>, F: seq<Box>)
    requires I == Inputs() && F == FinalResult()
    ensures OverlapPresent(F[..5][4], F[..5][4])
    ensures FindIntersection(F[..5][4], F[..5][4]) == Ok(Box(230, 100, 160, 160, 0, Some([])))
  {
  }

  lemma TwoE(I: seq<Box>, F: seq<Box>)
    requires I == Inputs() && F == FinalResult()
    ensures Step(F[..5], F[..7], 4, 4) == Ok(F[..7])
  {
    InputsWellFormed(I);
    FinalStored(F);
    PrefixStored(F, 7);
    PrefixStored(F, 5);
    TwoEOverlap(I, F);
    assert !IntersectionUnique(F[..7][4], Box(230, 100, 160, 160, 0, Some([])));
    SkipDuplicate(F[..5], F[..7], 4, 4, Box(230, 100, 160, 160, 0, Some([])), 4);
  }

  lemma ThreeAOverlap(I: seq<Box>, F: seq<Box>)
    requires I == Inputs() && F == FinalResult()
    ensures !OverlapPresent(F[6], F[0])
  {
  }

  lemma ThreeA(I: seq<Box>, F: seq<Box>)
    requires I == Inputs() && F == FinalResult()
    ensures Step(F, F[..7], 6, 0) == Ok(F[..7])
  {
    InputsWellFormed(I);
    FinalStored(F);
    PrefixStored(F, 7);
    PrefixStored(F, 5);
    ThreeAOverlap(I, F);
    SkipDisjoint(F, F[..7], 6, 0);
  }

  lemma ThreeBOverlap(I: seq<Box>, F: seq<Box>)
    requires I == Inputs() && F == FinalResult()
    ensures !OverlapPresent(F[6], F[1])
  {
  }

  lemma ThreeB(I: seq<Box>, F: seq<Box>)
    requires I == Inputs() && F == FinalResult()
    ensures Step(F, F[..7], 6, 1) == Ok(F[..7])
  {
    InputsWellFormed(I);
    FinalStored(F);
    PrefixStored(F, 7);
    PrefixStored(F, 5);
    ThreeBOverlap(I, F);
    SkipDisjoint(F, F[..7], 6, 1);
  }

  lemma ThreeCOverlap(I: seq<Box>, F: seq<Box>)
    requires I == Inputs() && F == FinalResult()
    ensures OverlapPresent(F[6], F[2])
    ensures FindIntersection(F[6], F[2]) == Ok(Box(210, 60, 160, 200, 0, Some([])))
  {
  }

  lemma ThreeC(I: seq<Box>, F: seq<Box>)
    requires I == Inputs() && F == FinalResult()
    ensures Step(F, F[..7], 6, 2) == Ok(F[..7])
  {
    InputsWellFormed(I);
    FinalStored(F);
    PrefixStored(F, 7);
    PrefixStored(F, 5);
    ThreeCOverlap(I, F);
    assert !IntersectionUnique(F[..7][6], Box(210, 60, 160, 200, 0, Some([])));
    SkipDuplicate(F, F[..7], 6, 2, Box(210, 60, 160, 200, 0, Some([])), 6);
  }

  lemma ThreeDOverlap(I: seq<Box>, F: seq<Box>)
    requires I == Inputs() && F == FinalResult()
    ensures OverlapPresent(F[6], F[3])
    ensures FindIntersection(F[6], F[3]) == Ok(Box(210, 60, 160, 200, 0, Some([])))
  {
  }

  lemma ThreeD(I: seq<Box>, F: seq<Box>)
    requires I == Inputs() && F == FinalResult()
    ensures Step(F, F[..7], 6, 3) == Ok(F[..7])
  {
    InputsWellFormed(I);
    FinalStored(F);
    PrefixStored(F, 7);
    PrefixStored(F, 5);
    ThreeDOverlap(I, F);
    assert !IntersectionUnique(F[..7][6], Box(210, 60, 160, 200, 0, Some([])));
    SkipDuplicate(F, F[..7], 6, 3, Box(210, 60, 160, 200, 0, Some([])), 6);
  }

  lemma ThreeEOverlap(I: seq<Box>, F: seq<Box>)
    requires I == Inputs() && F == FinalResult()
    ensures OverlapPresent(F[6], F[4])
    ensures FindIntersection(F[6], F[4]) == Ok(Box(210, 60, 160, 200, 0, Some([])))
  {
  }

  lemma ThreeE(I: seq<Box>, F: seq<Box>)
    requires I == Inputs() && F == FinalResult()
    ensures Step(F, F[..7], 6, 4) == Ok(F[..7])
  {
    InputsWellFormed(I);
    FinalStored(F);
    PrefixStored(F, 7);
    PrefixStored(F, 5);
    ThreeEOverlap(I, F);
    assert !IntersectionUnique(F[..7][6], Box(210, 60, 160, 200, 0, Some([])));
    SkipDuplicate(F, F[..7], 6, 4, Box(210, 60, 160, 200, 0, Some([])), 6);
  }

  lemma ThreeFOverlap(I: seq<Box>, F: seq<Box>)
    requires I == Inputs() && F == FinalResult()
    ensures !OverlapPresent(F[6], F[5])
  {
  }

  lemma ThreeF(I: seq<Box>, F: seq<Box>)
    requires I == Inputs() && F == FinalResult()
    ensures Step(F, F[..7], 6, 5) == Ok(F[..7])
  {
    InputsWellFormed(I);
    FinalStored(F);
    PrefixStored(F, 7);
    PrefixStored(F, 5);
    ThreeFOverlap(I, F);
    SkipDisjoint(F, F[..7], 6, 5);
  }

  lemma ThreeGOverlap(I: seq<Box>, F: seq<Box>)
    requires I == Inputs() && F == FinalResult()
    ensures OverlapPresent(F[6], F[6])
    ensures FindIntersection(F[6], F[6]) == Ok(Box(210, 60, 160, 200, 0, Some([])))
  {
  }

  lemma ThreeG(I: seq<Box>, F: seq<Box>)
    requires I == Inputs() && F == FinalResult()
    ensures Step(F, F[..7], 6, 6) == Ok(F[..7])
  {
    InputsWellFormed(I);
    FinalStored(F);
    PrefixStored(F, 7);
    PrefixStored(F, 5);
    ThreeGOverlap(I, F);
    assert !IntersectionUnique(F[..7][6], Box(210, 60, 160, 200, 0, Some([])));
    SkipDuplicate(F, F[..7], 6, 6, Box(210, 60, 160, 200, 0, Some([])), 6);
  }


  // The rows of each round, the rounds, and the whole search.

  lemma RowOneOfRoundOne(I: seq<Box>, F: seq<Box>)
    requires I == Inputs() && F == FinalResult()
    ensures Cols(I, F[..0], 0, 1, 4) == Ok(F[..2])
  {
    InputsWellFormed(I);
    FinalStored(F);
    PrefixStored(F, 0);
    OneA(I, F);
    NextColumn(I, F[..0], 0, 1, 4, F[..0]);
    RowOneTail(I, F);
  }

  lemma RowOneTail(I: seq<Box>, F: seq<Box>)
    requires I == Inputs() && F == FinalResult()
    ensures Cols(I, F[..0], 0, 2, 4) == Ok(F[..2])
  {
    InputsWellFormed(I);
    FinalStored(F);
    PrefixStored(F, 0);
    PrefixStored(F, 1);
    OneB(I, F);
    PrefixExtend(F, 0);
    NextColumn(I, F[..0], 0, 2, 4, F[..1]);
    OneC(I, F);
    PrefixExtend(F, 1);
    NextColumn(I, F[..1], 0, 3, 4, F[..2]);
    ColsEnd(I, F[..2], 0, 4, 4);
  }

  lemma RowTwoOfRoundOne(I: seq<Box>, F: seq<Box>)
    requires I == Inputs() && F == FinalResult()
    ensures Cols(I, F[..2], 1, 2, 4) == Ok(F[..4])
  {
    InputsWellFormed(I);
    FinalStored(F);
    PrefixStored(F, 2);
    PrefixStored(F, 3);
    OneD(I, F);
    PrefixExtend(F, 2);
    NextColumn(I, F[..2], 1, 2, 4, F[..3]);
    OneE(I, F);
    PrefixExtend(F, 3);
    NextColumn(I, F[..3], 1, 3, 4, F[..4]);
    ColsEnd(I, F[..4], 1, 4, 4);
  }

  lemma RowThreeOfRoundOne(I: seq<Box>, F: seq<Box>)
    requires I == Inputs() && F == FinalResult()
    ensures Cols(I, F[..4], 2, 3, 4) == Ok(F[..5])
  {
    InputsWellFormed(I);
    FinalStored(F);
    PrefixStored(F, 4);
    OneF(I, F);
    PrefixExtend(F, 4);
    NextColumn(I, F[..4], 2, 3, 4, F[..5]);
    ColsEnd(I, F[..5], 2, 4, 4);
  }

  /** Round 1 stores the five overlapping pairs {1,3}, {1,4}, {2,3}, {2,4}, {3,4}. */
  lemma RoundOne(I: seq<Box>, F: seq<Box>)
    requires I == Inputs() && F == FinalResult()
    ensures Round(I, [], 0) == Ok(F[..5])
  {
    InputsWellFormed(I);
    FinalStored(F);
    PrefixStored(F, 2);
    PrefixStored(F, 4);
    PrefixStored(F, 5);
    PrefixEmpty(F);
    RowOneOfRoundOne(I, F);
    NextRow(I, [], 0, 4, F[..2]);
    RowTwoOfRoundOne(I, F);
    NextRow(I, F[..2], 1, 4, F[..4]);
    RowThreeOfRoundOne(I, F);
    NextRow(I, F[..4], 2, 4, F[..5]);
    ColsEnd(I, F[..5], 3, 4, 4);
    NextRow(I, F[..5], 3, 4, F[..5]);
    RowsEnd(I, F[..5], 4);
  }

  /** Round 2 pairs the newest rectangle {3,4} with every stored one and adds {1,3,4} and {2,3,4}. */
  lemma RoundTwo(I: seq<Box>, F: seq<Box>)
    requires I == Inputs() && F == FinalResult()
    ensures Round(F[..5], F[..5], 4) == Ok(F)
  {
    InputsWellFormed(I);
    FinalStored(F);
    PrefixStored(F, 5);
    PrefixStored(F, 6);
    PrefixStored(F, 7);
    PrefixWhole(F);
    TwoA(I, F);
    PrefixExtend(F, 5);
    NextColumn(F[..5], F[..5], 4, 0, 5, F[..6]);
    TwoB(I, F);
    NextColumn(F[..5], F[..6], 4, 1, 5, F[..6]);
    TwoC(I, F);
    PrefixExtend(F, 6);
    NextColumn(F[..5], F[..6], 4, 2, 5, F[..7]);
    TwoD(I, F);
    NextColumn(F[..5], F[..7], 4, 3, 5, F[..7]);
    TwoE(I, F);
    NextColumn(F[..5], F[..7], 4, 4, 5, F[..7]);
    ColsEnd(F[..5], F[..7], 4, 5, 5);
    NextRow(F[..5], F[..5], 4, 5, F);
    RowsEnd(F[..5], F, 5);
  }

  /** Round 3 pairs {2,3,4} with every stored rectangle and finds nothing new. */
  lemma RoundThree(I: seq<Box>, F: seq<Box>)
    requires I == Inputs() && F == FinalResult()
    ensures Round(F, F, 6) == Ok(F)
  {
    InputsWellFormed(I);
    FinalStored(F);
    PrefixWhole(F);
    ThreeA(I, F);
    NextColumn(F, F, 6, 0, 7, F);
    ThreeB(I, F);
    NextColumn(F, F, 6, 1, 7, F);
    ThreeC(I, F);
    NextColumn(F, F, 6, 2, 7, F);
    ThreeD(I, F);
    NextColumn(F, F, 6, 3, 7, F);
    ThreeE(I, F);
    NextColumn(F, F, 6, 4, 7, F);
    ThreeF(I, F);
    NextColumn(F, F, 6, 5, 7, F);
    ThreeG(I, F);
    NextColumn(F, F, 6, 6, 7, F);
    ColsEnd(F, F, 6, 7, 7);
    NextRow(F, F, 6, 7, F);
    RowsEnd(F, F, 7);
  }

  /** One level of the recursion: a round that runs from the newest stored rectangle. */
  lemma {:induction false} SearchUnfold(inputs: seq<Box>, first: seq<Box>)
    requires AllWellFormed(inputs) && Round(inputs, [], 0) == Ok(first)
    requires Stored(first) && AllWithin(first, inputs) && |first| > 0
    ensures GetIntersections(inputs) == Continue(inputs, first, NoIntersections(first, 0), |first| - 1)
  {
    assert GetIntersections(inputs) == Search(inputs, []);
    SearchFirstRound(inputs, [], first);
  }

  /**
   * A search that stores something in round 1, grows once in round 2 and
   * finds nothing new in round 3 ends with the list of round 2.
   */
  lemma {:induction false} ThreeRounds(inputs: seq<Box>, first: seq<Box>, second: seq<Box>)
    requires AllWellFormed(inputs) && Round(inputs, [], 0) == Ok(first)
    requires AllWellFormed(first) && |first| > 0 && !NoIntersections(first, 0)
    requires Round(first, first, |first| - 1) == Ok(second)
    requires AllWellFormed(second) && |second| > 0 && !NoIntersections(second, |first| - 1)
    requires Round(second, second, |second| - 1) == Ok(second) && NoIntersections(second, |second| - 1)
    ensures GetIntersections(inputs) == Ok(second)
  {
    FirstRound(inputs, [], first);
    SearchUnfold(inputs, first);
    ContinueStep(inputs, first, second);
    ContinueStep(inputs, second, second);
    ContinueStop(inputs, second);
  }

  lemma FirstOverlap(I: seq<Box>, F: seq<Box>)
    requires I == Inputs() && F == FinalResult()
    ensures !NoIntersections(F[..5], 0)
  {
    assert OverlapPresent(F[..5][0], F[..5][1]);
  }

  lemma SecondOverlap(I: seq<Box>, F: seq<Box>)
    requires I == Inputs() && F == FinalResult()
    ensures !NoIntersections(F, 4)
  {
    assert OverlapPresent(F[4], F[5]);
  }

  /**
   * The four inputs give exactly seven intersections, in this order: the
   * five pairs, then {1,3,4} and {2,3,4}.
   */
  lemma FourRectangles(I: seq<Box>, F: seq<Box>)
    requires I == Inputs() && F == FinalResult()
    ensures GetIntersections(I) == Ok(F)
    ensures |F| == 7
  {
    InputsWellFormed(I);
    FinalStored(F);
    PrefixStored(F, 5);
    RoundOne(I, F);
    RoundTwo(I, F);
    RoundThree(I, F);
    FirstOverlap(I, F);
    SecondOverlap(I, F);
    ThreeRounds(I, F[..5], F);
  }
}
