/**
 * The cases of src/test/java/intersections/RectangleTest.java and of the
 * single-call tests in src/test/java/intersections/IntersectionReporterTest.java,
 * stated on the model. Rectangles built with the 4-argument constructor
 * have id 0 and an empty contributor list.
 */
module UnitExamples {
  import opened Common
  import opened Sorting
  import opened Rectangles
  import opened Geometry
  import opened Engine
  import Reporter

  /** `new Rectangle(deltaX, deltaY, x, y)`. */
  function Plain(deltaX: int, deltaY: int, x: int, y: int): Box {
    Box(deltaX, deltaY, x, y, 0, Some([]))
  }

  /** Every construction test refuses its parameters, and a positive rectangle is accepted. */
  lemma ConstructorChecks()
    ensures !ParametersAccepted(200, 200, -10, 100, 0)
    ensures !ParametersAccepted(-200, -200, -10, 100, 0)
    ensures !ParametersAccepted(-200, -200, -10, -100, 0)
    ensures !ParametersAccepted(0, 200, 10, 100, 0)
    ensures !ParametersAccepted(0, 0, 0, 100, 0)
    ensures !ParametersAccepted(0, 0, 0, 0, 0)
    ensures ParametersAccepted(20, 30, 40, 100, 0)
  {
  }

  /** Different bounds make an intersection unique; equal bounds with equal (empty) lists do not. */
  lemma UniqueByBounds()
    ensures IntersectionUnique(Plain(20, 30, 40, 100), Plain(30, 30, 50, 100))
    ensures !IntersectionUnique(Plain(20, 30, 40, 100), Plain(20, 30, 40, 100))
  {
  }

  /** Equal bounds: {1,2} against {1,3} is unique, {1,2} against {1,2} is not. */
  lemma UniqueByContributors(a: Box, b: Box, c: Box)
    requires a == Box(20, 30, 40, 100, 0, Some([1, 2]))
    requires b == Box(20, 30, 40, 100, 0, Some([1, 3]))
    requires c == Box(20, 30, 40, 100, 0, Some([1, 2]))
    ensures IntersectionUnique(a, b)
    ensures !IntersectionUnique(a, c)
  {
    assert 3 in b.contributors.value && 3 !in Ids(a.contributors);
    assert forall d :: d in c.contributors.value ==> d in Ids(a.contributors);
  }

  lemma SortedFixed(s: seq<int>)
    requires Sorted(s)
    ensures SortSeq(s) == s
  {
    SortSeqOfSorted(s);
  }

  /** `addUniqueContributors([1, 2])` on an empty list gives [1, 2]. */
  lemma AdditionToEmptyList(s: seq<int>)
    requires s == [1, 2]
    ensures MergeContributors([], Some(s)) == s
  {
    assert s[..1] == [1];
    assert [1][..0] == [];
    assert UniqueAppend([], s) == s;
    SortedFixed(s);
  }

  /** `addUniqueContributors([3, 4])` on [1, 2] gives [1, 2, 3, 4]. */
  lemma AdditionToOccupiedList(s: seq<int>, t: seq<int>)
    requires s == [1, 2] && t == [3, 4]
    ensures MergeContributors(s, Some(t)) == s + t
  {
    assert t[..1] == [3];
    assert [3][..0] == [];
    assert UniqueAppend(s, []) == s;
    assert UniqueAppend(s, [3]) == s + [3];
    assert UniqueAppend(s, t) == s + [3] + [4] == s + t;
    SortedFixed(s + t);
  }

  /** The object model of `addInitialContributors(1, 2)` on a new intersection rectangle. */
  method InitialContributorsAdded() returns (r: Rectangle)
    ensures r.contributors == Some([1, 2])
  {
    r := new Rectangle.Intersection(20, 30, 40, 100);
    r.AddInitialContributors(1, 2);
    assert [] + [1, 2] == [1, 2];
  }

  /** The object model of `addUniqueContributors([3, 4])` on a rectangle listing [1, 2]. */
  method UniqueContributorsAdded() returns (r: Rectangle)
    ensures r.contributors == Some([1, 2, 3, 4])
  {
    r := new Rectangle.Intersection(20, 30, 40, 100);
    r.SetContributors(Some([1, 2]));
    r.AddUniqueContributors(Some([3, 4]));
    AdditionToOccupiedList([1, 2], [3, 4]);
    assert [1, 2] + [3, 4] == [1, 2, 3, 4];
  }

  /** The eight `overlapPresent` tests: four touching or overlapping pairs, four apart. */
  lemma OverlapDirections()
    ensures OverlapPresent(Plain(100, 100, 100, 100), Plain(100, 200, 100, 100))
    ensures !OverlapPresent(Plain(100, 100, 100, 300), Plain(100, 100, 100, 100))
    ensures OverlapPresent(Plain(100, 200, 100, 100), Plain(100, 100, 100, 100))
    ensures !OverlapPresent(Plain(100, 100, 100, 100), Plain(100, 100, 100, 300))
    ensures OverlapPresent(Plain(200, 100, 100, 100), Plain(100, 100, 100, 100))
    ensures !OverlapPresent(Plain(100, 100, 100, 100), Plain(100, 100, 300, 300))
    ensures OverlapPresent(Plain(100, 100, 100, 100), Plain(200, 100, 100, 100))
    ensures !OverlapPresent(Plain(100, 100, 300, 100), Plain(100, 100, 100, 100))
  {
  }

  /** The normal case of `findIntersection`, and the pair whose overlap is negative. */
  lemma IntersectionCases()
    ensures FindIntersection(Plain(250, 80, 100, 100), Plain(250, 100, 140, 160)) == Ok(Plain(210, 20, 140, 160))
    ensures FindIntersection(Plain(250, 80, 100, 100), Plain(250, 150, 120, 200)) == Err(NegativeOverlap)
    ensures !OverlapPresent(Plain(250, 80, 100, 100), Plain(250, 150, 120, 200))
  {
  }

  /**
   * Two squares that share only the edge x = 200 pass the overlap test, and
   * the search over them stops with the error of `findIntersection`.
   */
  lemma SharedEdgeStopsTheSearch(inputs: seq<Box>)
    requires inputs == [Box(100, 100, 100, 100, 1, None), Box(100, 100, 200, 100, 2, None)]
    ensures OverlapPresent(inputs[0], inputs[1])
    ensures GetIntersections(inputs) == Err(NegativeOverlap)
  {
    EdgeTouchingOverlapsButFails(inputs[0], inputs[1]);
    assert Step(inputs, [], 0, 1) == Err(NegativeOverlap);
    assert Round(inputs, [], 0) == Err(NegativeOverlap);
  }

  /**
   * Inputs built with the 4-argument constructor all have id 0, so the
   * inner loop starts at index 0 and first pairs input 0 with itself: the
   * first stored rectangle is a copy of input 0's bounds with an empty list.
   */
  lemma PlainInputsPairWithThemselves(inputs: seq<Box>)
    requires AllWellFormed(inputs) && |inputs| > 0
    requires inputs[0].id == 0 && inputs[0].contributors == Some([])
    ensures Step(inputs, [], 0, inputs[0].id) ==
            Ok([Box(inputs[0].deltaX, inputs[0].deltaY, inputs[0].x, inputs[0].y, 0, Some([]))])
  {
    var a := inputs[0];
    assert OverlapPresent(a, a);
    var c := Box(a.deltaX, a.deltaY, a.x, a.y, 0, Some([]));
    assert FindIntersection(a, a) == Ok(c);
    assert AllUnique([], c);
    assert UniqueAppend([], []) == [];
    SortedFixed([]);
    assert MergeContributors([], Some([])) == [];
    assert Absorb(c, a, a) == c;
    assert [] + [c] == [c];
    assert Step(inputs, [], 0, 0) == Ok([] + [Absorb(c, a, a)]);
  }

  /**
   * A reporter asked twice: after a successful search the second
   * `getIntersections()` is allowed, and it keeps what the first stored.
   */
  method SearchTwice(inputs: seq<Rectangle>)
    returns (first: Result<seq<Rectangle>, Error>, second: Result<seq<Rectangle>, Error>)
    ensures first.Err? ==> second == first
    ensures first.Ok? && second.Ok? ==> first.value <= second.value
  {
    var reporter := new Reporter.IntersectionReporter(inputs);
    first := reporter.GetIntersections();
    if first.Err? {
      return first, first;
    }
    second := reporter.GetIntersections();
  }
}
