/**
 * The class IntersectionReporter of
 * src/main/java/intersections/IntersectionReporter.java: the input
 * rectangles, the list `allIntersections` it appends to, and the counter
 * `lastIntersection`. Each method is proved to leave exactly the state the
 * functions of the Engine module describe for the values of its rectangles.
 */
module Reporter {
  import opened Common
  import opened Sorting
  import opened Rectangles
  import opened Geometry
  import opened Engine

  lemma ValuesWellFormed(rs: seq<Rectangle>)
    ensures AllWellFormed(Values(rs))
  {
    forall k | 0 <= k < |rs| ensures WellFormed(Values(rs)[k]) {
      assert Values(rs)[k] == rs[k].Value();
    }
  }

  /** A list of rectangles each of which kept its value has kept its values. */
  twostate lemma ValuesKept(rs: seq<Rectangle>)
    requires forall r :: r in rs ==> r.Value() == old(r.Value())
    ensures Values(rs) == old(Values(rs))
  {
    assert forall k :: 0 <= k < |rs| ==> rs[k] in rs;
  }

  lemma ValuesAppend(rs: seq<Rectangle>, r: Rectangle)
    ensures Values(rs + [r]) == Values(rs) + [r.Value()]
  {
  }

  /** One more stored rectangle that admits the candidate. */
  lemma AdmittedUpTo(s: seq<Box>, candidate: Box, k: nat)
    requires Stored(s) && candidate.contributors.Some? && k < |s|
    requires forall m :: 0 <= m < k ==> IntersectionUnique(s[m], candidate)
    requires IntersectionUnique(s[k], candidate)
    ensures forall m :: 0 <= m < k + 1 ==> IntersectionUnique(s[m], candidate)
  {
  }

  /** Appending a stored box keeps a list stored. */
  lemma StoredAppend(s: seq<Box>, c: Box)
    requires Stored(s) && StoredBox(c)
    ensures Stored(s + [c])
  {
    assert forall k :: 0 <= k < |s| ==> (s + [c])[k] == s[k];
  }

  /** The step for an overlapping pair whose intersection is unique stores it, absorbed. */
  lemma StepStores(list: seq<Box>, stored: seq<Box>, i: nat, j: nat, c: Box)
    requires AllWellFormed(list) && Stored(stored) && i < |list| && j < |list|
    requires OverlapPresent(list[i], list[j]) && FindIntersection(list[i], list[j]) == Ok(c)
    requires AllUnique(stored, c)
    ensures Step(list, stored, i, j) == Ok(stored + [Absorb(c, list[i], list[j])])
  {
  }

  /** The step for an overlapping pair whose intersection is not unique stores nothing. */
  lemma StepSkips(list: seq<Box>, stored: seq<Box>, i: nat, j: nat, c: Box)
    requires AllWellFormed(list) && Stored(stored) && i < |list| && j < |list|
    requires OverlapPresent(list[i], list[j]) && FindIntersection(list[i], list[j]) == Ok(c)
    requires !AllUnique(stored, c)
    ensures Step(list, stored, i, j) == Ok(stored)
  {
  }

  class IntersectionReporter {
    const initialRectangles: seq<Rectangle>
    var allIntersections: seq<Rectangle>
    var lastIntersection: int

    /** The input rectangles as values. */
    ghost function Inputs(): seq<Box>
      reads initialRectangles
    {
      Values(initialRectangles)
    }

    /** The stored intersections as values. */
    ghost function Contents(): seq<Box>
      reads this, allIntersections
    {
      Values(allIntersections)
    }

    /**
     * The counter equals the number of stored intersections, each of them
     * an intersection rectangle with a sorted list.
     */
    ghost predicate Valid()
      reads this, allIntersections
    {
      lastIntersection == |allIntersections| && Stored(Contents())
    }

    /**
     * After a call that changes `this` and the stored rectangles and keeps
     * the value of each of those, the input rectangles keep their values.
     */
    twostate lemma InputsKept()
      requires forall r :: r in initialRectangles && r !in old(allIntersections) ==> unchanged(r)
      requires forall r :: r in old(allIntersections) ==> r.Value() == old(r.Value())
      ensures Inputs() == old(Inputs())
    {
      forall r | r in initialRectangles ensures r.Value() == old(r.Value()) {
        if r !in old(allIntersections) {
          assert unchanged(r);
        }
      }
      ValuesKept(initialRectangles);
    }

    /** The constructor once the null checks have passed. */
    constructor (initialRectangles: seq<Rectangle>)
      ensures this.initialRectangles == initialRectangles
      ensures allIntersections == [] && lastIntersection == 0
      ensures Valid()
    {
      this.initialRectangles := initialRectangles;
      allIntersections := [];
      lastIntersection := 0;
    }

    /** `new IntersectionReporter(list)`: a null list or a null element throws. */
    static method Create(list: Option<seq<Option<Rectangle>>>) returns (r: Result<IntersectionReporter, Error>)
      ensures list.None? ==> r == Err(NullList)
      ensures list.Some? ==> (r.Err? <==> exists k :: 0 <= k < |list.value| && list.value[k].None?)
      ensures list.Some? && r.Err? ==> r.error == NullRectangle
      ensures r.Ok? ==> fresh(r.value) && r.value.Valid() &&
                        r.value.allIntersections == [] && r.value.lastIntersection == 0 &&
                        |r.value.initialRectangles| == |list.value| &&
                        forall k :: 0 <= k < |list.value| ==> list.value[k] == Some(r.value.initialRectangles[k])
    {
      if list.None? {
        return Err(NullList);
      }
      var elements := list.value;
      var rectangles: seq<Rectangle> := [];
      var k := 0;
      while k < |elements|
        invariant 0 <= k <= |elements| && |rectangles| == k
        invariant forall m :: 0 <= m < k ==> elements[m] == Some(rectangles[m])
      {
        if elements[k].None? {
          return Err(NullRectangle);
        }
        rectangles := rectangles + [elements[k].value];
        k := k + 1;
      }
      var reporter := new IntersectionReporter(rectangles);
      return Ok(reporter);
    }

    /**
     * `findIntersection`: a new intersection rectangle between the larger
     * left and bottom edges and the smaller right and top edges, seeded with
     * both ids when both arguments are initial rectangles. It computes on
     * the objects' fields what `Geometry.FindIntersection` computes on their
     * values, and its ensures says the two agree.
     */
    method FindIntersection(rectangle1: Rectangle, rectangle2: Rectangle) returns (r: Result<Rectangle, Error>)
      ensures r.Err? <==> Geometry.FindIntersection(rectangle1.Value(), rectangle2.Value()).Err?
      ensures r.Err? ==> r.error == NegativeOverlap
      ensures r.Ok? ==> fresh(r.value) && r.value.Value() == Geometry.FindIntersection(rectangle1.Value(), rectangle2.Value()).value
    {
      var x1 := rectangle1.x;
      var y1 := rectangle1.y;
      var x2 := rectangle1.x + rectangle1.deltaX;
      var y2 := rectangle1.y + rectangle1.deltaY;
      var x3 := rectangle2.x;
      var y3 := rectangle2.y;
      var x4 := rectangle2.deltaX + rectangle2.x;
      var y4 := rectangle2.deltaY + rectangle2.y;
      var x5 := Max(x1, x3);
      var y5 := Max(y1, y3);
      var x6 := Min(x2, x4);
      var y6 := Min(y2, y4);
      var deltaX := x6 - x5;
      var deltaY := y6 - y5;
      if deltaX <= 0 || deltaY <= 0 {
        return Err(NegativeOverlap);
      }
      var newRectangle := new Rectangle.Intersection(deltaX, deltaY, x5, y5);
      if rectangle1.contributors.None? && rectangle2.contributors.None? {
        newRectangle.AddInitialContributors(rectangle1.id, rectangle2.id);
        assert [] + [rectangle1.id, rectangle2.id] == [rectangle1.id, rectangle2.id];
      }
      return Ok(newRectangle);
    }

    /**
     * `isUnique`: asks every stored rectangle whether the candidate is
     * unique and stops at the first that says no. The stored lists are
     * sorted already, so the sorting inside that test changes nothing.
     */
    method IsUnique(newRectangle: Rectangle) returns (unique: bool)
      requires Stored(Contents())
      requires newRectangle !in allIntersections && newRectangle.contributors.Some?
      modifies allIntersections
      ensures forall r :: r in allIntersections ==> r.Value() == old(r.Value())
      ensures Contents() == old(Contents())
      ensures unique == AllUnique(Contents(), newRectangle.Value())
    {
      ghost var s := Contents();
      ghost var candidate := newRectangle.Value();
      var k := 0;
      while k < |allIntersections|
        invariant 0 <= k <= |allIntersections|
        invariant forall r :: r in allIntersections ==> r.Value() == old(r.Value())
        invariant newRectangle.Value() == candidate
        invariant forall m :: 0 <= m < k ==> IntersectionUnique(s[m], candidate)
      {
        var rectangle := allIntersections[k];
        assert rectangle.Value() == s[k] && StoredBox(s[k]);
        SortSeqOfSorted(rectangle.contributors.value);
        var isUnique := rectangle.IsIntersectionUnique(newRectangle);
        if !isUnique {
          ValuesKept(allIntersections);
          return false;
        }
        AdmittedUpTo(s, candidate, k);
        k := k + 1;
      }
      ValuesKept(allIntersections);
      return true;
    }

    /**
     * The body of the inner loop of `generateIntersections` for the pair
     * (i, j) of a list whose values are `list`: on overlap, compute the
     * intersection and store it, with the ids of both rectangles merged in,
     * when no stored rectangle rejects it.
     */
    method ComparePair(rectangle1: Rectangle, rectangle2: Rectangle, ghost list: seq<Box>, ghost i: nat, ghost j: nat)
      returns (failure: Option<Error>)
      requires Valid()
      requires AllWellFormed(list) && i < |list| && j < |list|
      requires rectangle1.Value() == list[i] && rectangle2.Value() == list[j]
      modifies this, allIntersections
      ensures Valid() && old(allIntersections) <= allIntersections
      ensures forall r :: r in old(allIntersections) ==> r.Value() == old(r.Value())
      ensures forall k :: |old(allIntersections)| <= k < |allIntersections| ==> fresh(allIntersections[k])
      ensures var step := Step(list, old(Contents()), i, j);
              (failure.None? <==> step.Ok?) &&
              (failure.None? ==> Contents() == step.value) &&
              (failure.Some? ==> failure.value == step.error)
    {
      ghost var before := Contents();
      if OverlapPresent(rectangle1.Value(), rectangle2.Value()) {
        var found := FindIntersection(rectangle1, rectangle2);
        if found.Err? {
          return Some(found.error);
        }
        var newRectangle := found.value;
        ghost var candidate := newRectangle.Value();
        assert Geometry.FindIntersection(list[i], list[j]) == Ok(candidate);
        Admit(newRectangle, rectangle1, rectangle2);
        if AllUnique(before, candidate) {
          StepStores(list, before, i, j, candidate);
        } else {
          StepSkips(list, before, i, j, candidate);
        }
      } else {
        assert Step(list, before, i, j) == Ok(before);
      }
      return None;
    }

    /**
     * `if (isUnique(newRectangle)) { ... }` for a fresh candidate: it is
     * stored, with the ids of both rectangles merged in, exactly when every
     * stored rectangle admits it.
     */
    method Admit(newRectangle: Rectangle, rectangle1: Rectangle, rectangle2: Rectangle)
      requires Valid()
      requires newRectangle !in allIntersections && newRectangle.contributors.Some?
      requires newRectangle != rectangle1 && newRectangle != rectangle2
      requires WellFormed(newRectangle.Value()) && newRectangle.id == 0
      modifies this, allIntersections, newRectangle
      ensures Valid() && old(allIntersections) <= allIntersections
      ensures forall r :: r in old(allIntersections) ==> r.Value() == old(r.Value())
      ensures allIntersections == old(allIntersections) || allIntersections == old(allIntersections) + [newRectangle]
      ensures rectangle1.Value() == old(rectangle1.Value()) && rectangle2.Value() == old(rectangle2.Value())
      ensures Contents() ==
              if AllUnique(old(Contents()), old(newRectangle.Value()))
              then old(Contents()) + [Absorb(old(newRectangle.Value()), old(rectangle1.Value()), old(rectangle2.Value()))]
              else old(Contents())
    {
      label tested:
      var unique := IsUnique(newRectangle);
      ValuesKept@tested(allIntersections);
      if unique {
        label recording:
        Record(newRectangle, rectangle1, rectangle2);
        assert forall r :: r in old(allIntersections) ==> r.Value() == old@recording(r.Value());
      }
    }

    /**
     * The body of `if (isUnique(newRectangle))`: merge the lists of both
     * rectangles into the candidate, append it, count it.
     */
    method Record(newRectangle: Rectangle, rectangle1: Rectangle, rectangle2: Rectangle)
      requires Valid()
      requires newRectangle !in allIntersections && newRectangle.contributors.Some?
      requires newRectangle != rectangle1 && newRectangle != rectangle2
      requires WellFormed(newRectangle.Value()) && newRectangle.id == 0
      modifies this, newRectangle
      ensures Valid()
      ensures allIntersections == old(allIntersections) + [newRectangle]
      ensures lastIntersection == old(lastIntersection) + 1
      ensures newRectangle.Value() == Absorb(old(newRectangle.Value()), rectangle1.Value(), rectangle2.Value())
      ensures rectangle1.Value() == old(rectangle1.Value()) && rectangle2.Value() == old(rectangle2.Value())
      ensures Contents() == old(Contents()) + [newRectangle.Value()]
    {
      ghost var before := Contents();
      MergeInto(newRectangle, rectangle1, rectangle2);
      assert Contents() == before;
      StoredAppend(before, newRectangle.Value());
      ValuesAppend(allIntersections, newRectangle);
      var grown := allIntersections + [newRectangle];
      allIntersections, this.lastIntersection := grown, this.lastIntersection + 1;
    }

    /** The two `addUniqueContributors` calls: the candidate absorbs the ids of both rectangles. */
    static method MergeInto(newRectangle: Rectangle, rectangle1: Rectangle, rectangle2: Rectangle)
      requires newRectangle.contributors.Some?
      requires newRectangle != rectangle1 && newRectangle != rectangle2
      modifies newRectangle
      ensures newRectangle.Value() == Absorb(old(newRectangle.Value()), rectangle1.Value(), rectangle2.Value())
    {
      newRectangle.AddUniqueContributors(rectangle1.contributors);
      newRectangle.AddUniqueContributors(rectangle2.contributors);
    }

    /**
     * `getIntersections()`: round 1 over the input rectangles, then the
     * recursion from the newest stored rectangle. A thrown exception is the
     * error returned; otherwise the stored list is returned.
     */
    method GetIntersections() returns (result: Result<seq<Rectangle>, Error>)
      requires Valid() && AllWithin(Contents(), Inputs())
      modifies this, allIntersections
      ensures Valid() && old(allIntersections) <= allIntersections
      ensures forall k :: |old(allIntersections)| <= k < |allIntersections| ==> fresh(allIntersections[k])
      ensures Inputs() == old(Inputs())
      ensures result.Ok? ==> AllWithin(Contents(), Inputs())
      ensures var search := Search(old(Inputs()), old(Contents()));
              (result.Ok? <==> search.Ok?) &&
              (result.Ok? ==> result.value == allIntersections && Contents() == search.value) &&
              (result.Err? ==> result.error == search.error)
    {
      ValuesWellFormed(initialRectangles);
      var failure := RunSearch(Inputs());
      if failure.Some? {
        return Err(failure.value);
      }
      return Ok(allIntersections);
    }

    /**
     * The body of `getIntersections()` with its exception as an optional
     * error: the first round, then the rest of the search.
     */
    method RunSearch(ghost inputs: seq<Box>) returns (failure: Option<Error>)
      requires Valid() && inputs == Inputs() && AllWellFormed(inputs) && AllWithin(Contents(), inputs)
      modifies this, allIntersections
      ensures Valid() && old(allIntersections) <= allIntersections
      ensures forall k :: |old(allIntersections)| <= k < |allIntersections| ==> fresh(allIntersections[k])
      ensures Inputs() == old(Inputs())
      ensures Reports(failure, Contents(), Search(inputs, old(Contents())))
      ensures failure.None? ==> AllWithin(Contents(), inputs)
    {
      var none;
      failure, none := StartSearch(inputs);
      if failure.Some? {
        return failure;
      }
      ghost var mid := allIntersections;
      failure := FinishSearch(none, inputs, old(Contents()));
      forall k | |old(allIntersections)| <= k < |allIntersections| ensures fresh(allIntersections[k]) {
        if k < |mid| {
          assert allIntersections[k] == mid[k];
        }
      }
    }

    /**
     * The call `getIntersections(noIntersection, lastIntersection - 1)` that
     * ends `getIntersections()`, after the first round stored `Contents()`
     * on top of `stored`.
     */
    method FinishSearch(none: bool, ghost inputs: seq<Box>, ghost stored: seq<Box>) returns (failure: Option<Error>)
      requires Valid() && inputs == Inputs() && AllWellFormed(inputs)
      requires Stored(stored) && AllWithin(stored, inputs)
      requires Round(inputs, stored, 0) == Ok(Contents())
      requires none == Engine.NoIntersections(Contents(), 0)
      requires AllWithin(Contents(), inputs) && (!none ==> |allIntersections| > 0)
      modifies this, allIntersections
      ensures Valid() && old(allIntersections) <= allIntersections
      ensures forall k :: |old(allIntersections)| <= k < |allIntersections| ==> fresh(allIntersections[k])
      ensures Inputs() == old(Inputs())
      ensures Reports(failure, Contents(), Search(inputs, stored))
      ensures failure.None? ==> AllWithin(Contents(), inputs)
    {
      ghost var first := Contents();
      var last := this.lastIntersection - 1;
      failure := GetIntersectionsFrom(none, last, inputs);
      SearchChain(inputs, stored, first, none, last, failure, Contents());
      if failure.None? {
        SearchWithin(inputs, stored);
      }
    }

    /**
     * The start of `getIntersections()`: the round over the input
     * rectangles, then the check for overlaps among all that is stored.
     */
    method StartSearch(ghost inputs: seq<Box>) returns (failure: Option<Error>, none: bool)
      requires Valid() && inputs == Inputs() && AllWithin(Contents(), inputs)
      modifies this, allIntersections
      ensures Valid() && old(allIntersections) <= allIntersections
      ensures forall k :: |old(allIntersections)| <= k < |allIntersections| ==> fresh(allIntersections[k])
      ensures Inputs() == old(Inputs())
      ensures failure.Some? ==> Reports(failure, Contents(), Search(inputs, old(Contents())))
      ensures failure.None? ==> Round(inputs, old(Contents()), 0) == Ok(Contents())
      ensures failure.None? ==> none == Engine.NoIntersections(Contents(), 0)
      ensures failure.None? ==> AllWithin(Contents(), inputs) && (!none ==> |allIntersections| > 0)
    {
      ghost var stored := Contents();
      ValuesWellFormed(initialRectangles);
      failure := GenerateIntersections(initialRectangles, 0);
      InputsKept();
      if failure.Some? {
        return failure, false;
      }
      none := NoIntersections(0);
      FirstRound(inputs, stored, Contents());
    }

    /**
     * The recursive `getIntersections(noIntersections, lastIntersection)`:
     * while the last round left an overlap, run a round over the stored
     * list from `lastIntersection` and recurse. It ends because each round
     * that stores something stores bounds made of input edges that were not
     * stored before.
     */
    method GetIntersectionsFrom(noIntersections: bool, lastIntersection: int, ghost inputs: seq<Box>)
      returns (failure: Option<Error>)
      requires Valid() && AllWithin(Contents(), inputs)
      requires lastIntersection == |allIntersections| - 1
      requires !noIntersections ==> |allIntersections| > 0
      modifies this, allIntersections
      ensures Valid() && old(allIntersections) <= allIntersections
      ensures forall k :: |old(allIntersections)| <= k < |allIntersections| ==> fresh(allIntersections[k])
      ensures Inputs() == old(Inputs())
      ensures Reports(failure, Contents(), Continue(inputs, old(Contents()), noIntersections, lastIntersection))
      decreases |Universe(inputs) - BoundsSet(Contents())|, if noIntersections then 0 else 1, 1
    {
      if noIntersections {
        return None;
      }
      failure := Advance(lastIntersection, inputs);
    }

    /** The recursive case: one round, then the recursion on what it stored. */
    method Advance(lastIntersection: nat, ghost inputs: seq<Box>) returns (failure: Option<Error>)
      requires Valid() && AllWithin(Contents(), inputs)
      requires lastIntersection == |allIntersections| - 1
      modifies this, allIntersections
      ensures Valid() && old(allIntersections) <= allIntersections
      ensures forall k :: |old(allIntersections)| <= k < |allIntersections| ==> fresh(allIntersections[k])
      ensures Inputs() == old(Inputs())
      ensures Reports(failure, Contents(), Continue(inputs, old(Contents()), false, lastIntersection))
      decreases |Universe(inputs) - BoundsSet(Contents())|, 1, 0
    {
      ghost var stored := Contents();
      var none;
      failure, none := NextRound(lastIntersection, inputs);
      if failure.Some? {
        return failure;
      }
      ghost var next := Contents();
      ghost var mid := allIntersections;
      var nextLast := this.lastIntersection - 1;
      failure := GetIntersectionsFrom(none, nextLast, inputs);
      forall k | |old(allIntersections)| <= k < |allIntersections| ensures fresh(allIntersections[k]) {
        if k < |mid| {
          assert allIntersections[k] == mid[k];
        }
      }
      ContinueChain(inputs, stored, lastIntersection, next, none, nextLast, failure, Contents());
    }

    /**
     * One level of the recursion: the round from the newest stored
     * rectangle, then the check for overlaps from that position on.
     */
    method NextRound(lastIntersection: nat, ghost inputs: seq<Box>) returns (failure: Option<Error>, none: bool)
      requires Valid() && AllWithin(Contents(), inputs)
      requires lastIntersection == |allIntersections| - 1
      modifies this, allIntersections
      ensures Valid() && old(allIntersections) <= allIntersections
      ensures forall k :: |old(allIntersections)| <= k < |allIntersections| ==> fresh(allIntersections[k])
      ensures Inputs() == old(Inputs())
      ensures failure.Some? ==> Reports(failure, Contents(), Continue(inputs, old(Contents()), false, lastIntersection))
      ensures failure.None? ==> Round(old(Contents()), old(Contents()), lastIntersection) == Ok(Contents())
      ensures failure.None? ==> none == Engine.NoIntersections(Contents(), lastIntersection)
      ensures failure.None? ==> AllWithin(Contents(), inputs)
      ensures failure.None? ==> |Universe(inputs) - BoundsSet(Contents())| < |Universe(inputs) - BoundsSet(old(Contents()))| ||
                                (Contents() == old(Contents()) && none)
    {
      ghost var stored := Contents();
      ValuesWellFormed(allIntersections);
      failure := GenerateIntersections(allIntersections, lastIntersection);
      InputsKept();
      if failure.Some? {
        ContinueFails(inputs, stored);
        return failure, false;
      }
      none := NoIntersections(lastIntersection);
      RoundProgress(inputs, stored, lastIntersection, Contents());
    }

    /**
     * `generateIntersections(rectangleList, lastIntersection)`: compares the
     * pairs (i, j) with `lastIntersection <= i < endPoint` and
     * `rectangle1.getId() <= j < endPoint`, where `endPoint` is the size of
     * the list on entry. The thrown exception of `findIntersection` is the
     * failure returned; it ends the search.
     */
    method GenerateIntersections(rectangleList: seq<Rectangle>, lastIntersection: nat) returns (failure: Option<Error>)
      requires Valid()
      modifies this, allIntersections
      ensures Valid() && old(allIntersections) <= allIntersections
      ensures forall r :: r in old(allIntersections) ==> r.Value() == old(r.Value())
      ensures forall k :: |old(allIntersections)| <= k < |allIntersections| ==> fresh(allIntersections[k])
      ensures var round := Round(old(Values(rectangleList)), old(Contents()), lastIntersection);
              (failure.None? <==> round.Ok?) &&
              (failure.None? ==> Contents() == round.value) &&
              (failure.Some? ==> failure.value == round.error)
    {
      ghost var list := Values(rectangleList);
      ValuesWellFormed(rectangleList);
      ghost var goal := Round(list, Contents(), lastIntersection);
      var endPoint := |rectangleList|;
      var i := lastIntersection;
      while i < endPoint
        invariant lastIntersection <= i
        invariant Valid() && old(allIntersections) <= allIntersections
        invariant forall r :: r in old(allIntersections) ==> r.Value() == old(r.Value())
        invariant forall k :: |old(allIntersections)| <= k < |allIntersections| ==> fresh(allIntersections[k])
        invariant forall k :: 0 <= k < |list| ==> rectangleList[k].Value() == list[k]
        invariant goal == Rows(list, Contents(), i, endPoint)
      {
        ghost var before := allIntersections;
        var failed := CompareRow(rectangleList, list, i, endPoint);
        forall k | |old(allIntersections)| <= k < |allIntersections| ensures fresh(allIntersections[k]) {
          if k < |before| {
            assert allIntersections[k] == before[k];
          }
        }
        if failed.Some? {
          return failed;
        }
        i := i + 1;
      }
      return None;
    }

    /**
     * The inner loop of `generateIntersections`: `rectangleList[i]` against
     * `rectangleList[j]` for `rectangle1.getId() <= j < endPoint`.
     */
    method CompareRow(rectangleList: seq<Rectangle>, ghost list: seq<Box>, i: nat, endPoint: nat)
      returns (failure: Option<Error>)
      requires Valid() && AllWellFormed(list)
      requires i < endPoint == |rectangleList| == |list|
      requires forall k :: 0 <= k < |list| ==> rectangleList[k].Value() == list[k]
      modifies this, allIntersections
      ensures Valid() && old(allIntersections) <= allIntersections
      ensures forall r :: r in old(allIntersections) ==> r.Value() == old(r.Value())
      ensures forall k :: |old(allIntersections)| <= k < |allIntersections| ==> fresh(allIntersections[k])
      ensures var row := Cols(list, old(Contents()), i, list[i].id, endPoint);
              (failure.None? <==> row.Ok?) &&
              (failure.None? ==> Contents() == row.value) &&
              (failure.Some? ==> failure.value == row.error)
    {
      var rectangle1 := rectangleList[i];
      var startPoint := rectangle1.id;
      var j := startPoint;
      while j < endPoint
        invariant Valid() && old(allIntersections) <= allIntersections
        invariant forall r :: r in old(allIntersections) ==> r.Value() == old(r.Value())
        invariant forall k :: |old(allIntersections)| <= k < |allIntersections| ==> fresh(allIntersections[k])
        invariant Cols(list, old(Contents()), i, startPoint, endPoint) == Cols(list, Contents(), i, j, endPoint)
      {
        var rectangle2 := rectangleList[j];
        assert rectangle1.Value() == list[i] && rectangle2.Value() == list[j];
        var failed := ComparePair(rectangle1, rectangle2, list, i, j);
        if failed.Some? {
          return failed;
        }
        j := j + 1;
      }
      return None;
    }

    /** `noIntersections(k)`: scans the pairs k <= i < j of the stored list for an overlap. */
    method NoIntersections(lastIntersection: nat) returns (none: bool)
      ensures Contents() == old(Contents())
      ensures none == Engine.NoIntersections(Contents(), lastIntersection)
    {
      ghost var s := Contents();
      var endingPoint := |allIntersections|;
      var i := lastIntersection;
      while i < endingPoint
        invariant lastIntersection <= i
        invariant forall p, q :: lastIntersection <= p < i && p < q < endingPoint ==> !OverlapPresent(s[p], s[q])
      {
        var rectangle1 := allIntersections[i];
        var j := i + 1;
        while j < endingPoint
          invariant i + 1 <= j <= endingPoint
          invariant forall q :: i < q < j ==> !OverlapPresent(s[i], s[q])
        {
          var rectangle2 := allIntersections[j];
          assert rectangle1.Value() == s[i] && rectangle2.Value() == s[j];
          if OverlapPresent(rectangle1.Value(), rectangle2.Value()) {
            return false;
          }
          j := j + 1;
        }
        i := i + 1;
      }
      return true;
    }
  }
}
