/**
 * The rectangle data model of src/main/java/intersections/Rectangle.java.
 *
 * A rectangle is an axis-aligned box anchored at (x, y) with width deltaX and
 * height deltaY. An *initial* rectangle carries the id of its position in the
 * input and no contributor list (`None`, Java's null); an *intersection*
 * rectangle has id 0 and a contributor list of initial ids.
 *
 * `Box` is the value of a rectangle at one moment; the class `Rectangle` is
 * the object whose contributor list the source updates in place.
 */
module Rectangles {
  import opened Common
  import opened Sorting

  /** The state of one rectangle, fields in the order of the Java constructor. */
  datatype Box = Box(deltaX: int, deltaY: int, x: int, y: int, id: int, contributors: Option<seq<int>>)

  type Positive = n: int | n > 0 witness 1

  /** What the constructor guarantees of every rectangle it lets through. */
  predicate WellFormed(b: Box) {
    b.deltaX > 0 && b.deltaY > 0 && b.x > 0 && b.y > 0 && b.id >= 0
  }

  /** The constructor's parameter check: false exactly when it throws. */
  predicate ParametersAccepted(deltaX: int, deltaY: int, x: int, y: int, id: int) {
    !(deltaX <= 0 || deltaY <= 0 || x <= 0 || y <= 0 || id < 0)
  }

  /** Equal position and size, the first four conjuncts of `isIntersectionUnique`. */
  predicate SameBounds(a: Box, b: Box) {
    a.x == b.x && a.y == b.y && a.deltaX == b.deltaX && a.deltaY == b.deltaY
  }

  /** The ids in a possibly absent list. */
  function Ids(cs: Option<seq<int>>): seq<int> {
    if cs.Some? then cs.value else []
  }

  /** `areContributorsUnique`: some id of `theirs` is missing from `mine`. */
  predicate HasNewContributor(mine: seq<int>, theirs: seq<int>) {
    exists c :: c in theirs && c !in mine
  }

  /**
   * The Java code dereferences the lists only when the bounds are equal:
   * then the candidate's list must exist, and the stored list as well as soon
   * as the candidate's list has an element to look up.
   */
  predicate UniqueDefined(stored: Box, candidate: Box) {
    SameBounds(stored, candidate) ==>
      candidate.contributors.Some? &&
      (|candidate.contributors.value| > 0 ==> stored.contributors.Some?)
  }

  /** `stored.isIntersectionUnique(candidate)`. */
  predicate IntersectionUnique(stored: Box, candidate: Box)
    requires UniqueDefined(stored, candidate)
  {
    !(SameBounds(stored, candidate) &&
      !HasNewContributor(Ids(stored.contributors), candidate.contributors.value))
  }

  /**
   * The duplicate test rejects exactly the candidates of equal bounds
   * each of whose ids the stored rectangle already lists.
   */
  lemma NotUniqueIff(stored: Box, candidate: Box)
    requires UniqueDefined(stored, candidate)
    ensures !IntersectionUnique(stored, candidate) <==>
            SameBounds(stored, candidate) &&
            forall c :: c in candidate.contributors.value ==> c in Ids(stored.contributors)
  {
    if SameBounds(stored, candidate) && !IntersectionUnique(stored, candidate) {
      forall c | c in candidate.contributors.value ensures c in Ids(stored.contributors) {
        assert !HasNewContributor(Ids(stored.contributors), candidate.contributors.value);
      }
    }
  }

  /**
   * The test is not symmetric: a candidate with an empty list is never
   * unique next to a rectangle of equal bounds, whatever that one lists.
   */
  lemma EmptyListNeverUnique(stored: Box, candidate: Box)
    requires SameBounds(stored, candidate) && candidate.contributors == Some([]) && stored.contributors.Some?
    ensures !IntersectionUnique(stored, candidate)
    ensures |stored.contributors.value| > 0 ==> IntersectionUnique(candidate, stored)
  {
    if |stored.contributors.value| > 0 {
      var c := stored.contributors.value[0];
      assert c in stored.contributors.value && c !in Ids(candidate.contributors);
    }
  }

  /**
   * The list the loop of `addUniqueContributors` builds before its final
   * sort: each id of `list` is appended unless it is already present
   * (ids appended earlier in the same call included).
   */
  function UniqueAppend(cs: seq<int>, list: seq<int>): seq<int> {
    if list == [] then cs
    else
      var acc := UniqueAppend(cs, list[..|list| - 1]);
      var c := list[|list| - 1];
      if c in acc then acc else acc + [c]
  }

  /** The contributor list after `addUniqueContributors(list)`; a null list only sorts. */
  function MergeContributors(cs: seq<int>, list: Option<seq<int>>): seq<int> {
    SortSeq(if list.Some? then UniqueAppend(cs, list.value) else cs)
  }

  /** No id occurs twice. */
  predicate NoDuplicates(s: seq<int>) {
    forall i, j :: 0 <= i < j < |s| ==> s[i] != s[j]
  }

  /** UniqueAppend keeps every old entry and adds each new id exactly once. */
  lemma {:induction false} UniqueAppendCounts(cs: seq<int>, list: seq<int>, c: int)
    ensures c in cs ==> multiset(UniqueAppend(cs, list))[c] == multiset(cs)[c]
    ensures c !in cs && c in list ==> multiset(UniqueAppend(cs, list))[c] == 1
    ensures c !in cs && c !in list ==> multiset(UniqueAppend(cs, list))[c] == 0
  {
    if list != [] {
      var init := list[..|list| - 1];
      var last := list[|list| - 1];
      assert list == init + [last];
      UniqueAppendCounts(cs, init, c);
      var acc := UniqueAppend(cs, init);
      if last !in acc {
        assert multiset(acc + [last]) == multiset(acc) + multiset{last};
        if c == last {
          assert multiset(acc)[c] == 0;
        }
      }
    }
  }

  /** Merging gives a sorted list whose ids are exactly the old ones and the new ones. */
  lemma MergeContents(cs: seq<int>, list: Option<seq<int>>)
    ensures Sorted(MergeContributors(cs, list))
    ensures forall c :: c in MergeContributors(cs, list) <==> c in cs || c in Ids(list)
  {
    var m := MergeContributors(cs, list);
    SortSeqPermutes(if list.Some? then UniqueAppend(cs, list.value) else cs);
    forall c ensures c in m <==> c in cs || c in Ids(list) {
      assert c in m <==> c in multiset(m);
      assert c in cs <==> c in multiset(cs);
      if list.Some? {
        UniqueAppendCounts(cs, list.value, c);
      }
    }
  }

  /**
   * No id already present is added again, and each new id arrives once:
   * an id of `cs` keeps its multiplicity, an id only in `list` occurs once.
   */
  lemma MergeCounts(cs: seq<int>, list: Option<seq<int>>, c: int)
    ensures c in cs ==> multiset(MergeContributors(cs, list))[c] == multiset(cs)[c]
    ensures c !in cs && c in Ids(list) ==> multiset(MergeContributors(cs, list))[c] == 1
    ensures c !in cs && c !in Ids(list) ==> multiset(MergeContributors(cs, list))[c] == 0
  {
    SortSeqPermutes(if list.Some? then UniqueAppend(cs, list.value) else cs);
    if list.Some? {
      UniqueAppendCounts(cs, list.value, c);
    }
  }

  /** Merging into a list without repeats gives a list without repeats, hence strictly ascending. */
  lemma MergeKeepsNoDuplicates(cs: seq<int>, list: Option<seq<int>>)
    requires NoDuplicates(cs)
    ensures NoDuplicates(MergeContributors(cs, list))
  {
    var m := MergeContributors(cs, list);
    forall c ensures multiset(m)[c] <= 1 {
      MergeCounts(cs, list, c);
      NoDuplicatesCount(cs, c);
    }
    AtMostOnceNoDuplicates(m);
  }

  /** In a list without repeats an id occurs at most once. */
  lemma {:induction false} NoDuplicatesCount(s: seq<int>, c: int)
    requires NoDuplicates(s)
    ensures multiset(s)[c] <= 1
  {
    if s != [] {
      assert s == [s[0]] + s[1..];
      NoDuplicatesCount(s[1..], c);
      if s[0] == c {
        assert c !in s[1..];
      }
    }
  }

  /** A list in which every id occurs at most once has no repeats. */
  lemma AtMostOnceNoDuplicates(s: seq<int>)
    requires forall c :: multiset(s)[c] <= 1
    ensures NoDuplicates(s)
  {
    forall i, j | 0 <= i < j < |s| ensures s[i] != s[j] {
      RepeatCounts(s, i, j);
    }
  }

  /** Two equal entries make an id occur at least twice. */
  lemma RepeatCounts(s: seq<int>, i: nat, j: nat)
    requires i < j < |s|
    ensures s[i] == s[j] ==> multiset(s)[s[i]] >= 2
  {
    assert s == s[..i] + [s[i]] + s[i + 1..j] + [s[j]] + s[j + 1..];
  }

  /** Two lists with the same multiset have the same members. */
  lemma SameMembers(a: seq<int>, b: seq<int>)
    requires multiset(a) == multiset(b)
    ensures forall c :: c in a <==> c in b
  {
    forall c ensures c in a <==> c in b {
      assert c in a <==> c in multiset(a);
      assert c in b <==> c in multiset(b);
    }
  }

  /** One more step of the loop of `addUniqueContributors`. */
  lemma UniqueAppendStep(cs: seq<int>, list: seq<int>, k: nat)
    requires k < |list|
    ensures UniqueAppend(cs, list[..k + 1]) ==
            var acc := UniqueAppend(cs, list[..k]);
            if list[k] in acc then acc else acc + [list[k]]
  {
    assert list[..k + 1][..k] == list[..k];
  }

  /** The rectangle object. Geometry and id never change after construction. */
  class Rectangle {
    const deltaX: Positive
    const deltaY: Positive
    const x: Positive
    const y: Positive
    const id: nat
    var contributors: Option<seq<int>>

    /** The current state of this rectangle as a value. */
    function Value(): (b: Box)
      reads this
      ensures WellFormed(b)
    {
      Box(deltaX, deltaY, x, y, id, contributors)
    }

    /** The 5-argument constructor: an initial rectangle, contributors null. */
    constructor Initial(deltaX: Positive, deltaY: Positive, x: Positive, y: Positive, id: nat)
      ensures Value() == Box(deltaX, deltaY, x, y, id, None)
    {
      this.deltaX, this.deltaY, this.x, this.y, this.id := deltaX, deltaY, x, y, id;
      this.contributors := None;
    }

    /** The 4-argument constructor: an intersection rectangle, id 0 and an empty list. */
    constructor Intersection(deltaX: Positive, deltaY: Positive, x: Positive, y: Positive)
      ensures Value() == Box(deltaX, deltaY, x, y, 0, Some([]))
    {
      this.deltaX, this.deltaY, this.x, this.y, this.id := deltaX, deltaY, x, y, 0;
      this.contributors := Some([]);
    }

    /** `new Rectangle(deltaX, deltaY, x, y, id)`, which throws on a bad parameter. */
    static method NewInitial(deltaX: int, deltaY: int, x: int, y: int, id: int)
      returns (r: Result<Rectangle, Error>)
      ensures r.Err? <==> !ParametersAccepted(deltaX, deltaY, x, y, id)
      ensures r.Err? ==> r.error == NonPositiveParameter
      ensures r.Ok? ==> fresh(r.value) && r.value.Value() == Box(deltaX, deltaY, x, y, id, None)
    {
      if deltaX <= 0 || deltaY <= 0 || x <= 0 || y <= 0 || id < 0 {
        return Err(NonPositiveParameter);
      }
      var rect := new Rectangle.Initial(deltaX, deltaY, x, y, id);
      return Ok(rect);
    }

    /** `new Rectangle(deltaX, deltaY, x, y)`: the same check with id 0. */
    static method NewIntersection(deltaX: int, deltaY: int, x: int, y: int)
      returns (r: Result<Rectangle, Error>)
      ensures r.Err? <==> !ParametersAccepted(deltaX, deltaY, x, y, 0)
      ensures r.Err? ==> r.error == NonPositiveParameter
      ensures r.Ok? ==> fresh(r.value) && r.value.Value() == Box(deltaX, deltaY, x, y, 0, Some([]))
    {
      if deltaX <= 0 || deltaY <= 0 || x <= 0 || y <= 0 {
        return Err(NonPositiveParameter);
      }
      var rect := new Rectangle.Intersection(deltaX, deltaY, x, y);
      return Ok(rect);
    }

    /** Test fixture: replaces the contributor list. */
    method SetContributors(newContributors: Option<seq<int>>)
      modifies this
      ensures contributors == newContributors
    {
      contributors := newContributors;
    }

    /** Sorts the list in place, then looks `contributor` up by binary search. */
    method IsContributorUnique(contributor: int) returns (unique: bool)
      requires contributors.Some?
      modifies this
      ensures contributors == Some(SortSeq(old(contributors).value))
      ensures unique <==> contributor !in old(contributors).value
    {
      ghost var before := contributors.value;
      contributors := Some(SortSeq(contributors.value));
      var searchItem := BinarySearch(contributors.value, contributor);
      assert contributor in contributors.value <==> contributor in before by {
        SortSeqPermutes(before);
        assert contributor in contributors.value <==> contributor in multiset(contributors.value);
        assert contributor in before <==> contributor in multiset(before);
      }
      unique := searchItem < 0;
    }

    /** True when `other` lists an id this rectangle does not; sorts this list on the way. */
    method AreContributorsUnique(other: Rectangle) returns (unique: bool)
      requires other != this
      requires other.contributors.Some?
      requires |other.contributors.value| > 0 ==> contributors.Some?
      modifies this
      ensures unique <==> HasNewContributor(Ids(old(contributors)), other.contributors.value)
      ensures contributors == if |other.contributors.value| > 0
                               then Some(SortSeq(old(contributors).value))
                               else old(contributors)
    {
      var theirs := other.contributors.value;
      var i := 0;
      while i < |theirs|
        invariant 0 <= i <= |theirs|
        invariant other.contributors == Some(theirs)
        invariant i == 0 ==> contributors == old(contributors)
        invariant i > 0 ==> contributors == Some(SortSeq(old(contributors).value))
        invariant forall k :: 0 <= k < i ==> theirs[k] in Ids(old(contributors))
      {
        if i > 0 {
          SortSeqIdempotent(old(contributors).value);
          SortSeqPermutes(old(contributors).value);
          SameMembers(contributors.value, old(contributors).value);
        }
        var isUnique := IsContributorUnique(theirs[i]);
        if isUnique {
          return true;
        }
        i := i + 1;
      }
      return false;
    }

    /**
     * False exactly when both rectangles have the same bounds and `other`
     * lists no id missing from this rectangle's list.
     */
    method IsIntersectionUnique(other: Rectangle) returns (unique: bool)
      requires other != this
      requires UniqueDefined(Value(), other.Value())
      modifies this
      ensures unique == IntersectionUnique(old(Value()), other.Value())
      ensures contributors == if SameBounds(old(Value()), other.Value()) && |Ids(other.contributors)| > 0
                               then Some(SortSeq(old(contributors).value))
                               else old(contributors)
    {
      if x == other.x && y == other.y && deltaX == other.deltaX && deltaY == other.deltaY {
        var newId := AreContributorsUnique(other);
        unique := newId;
      } else {
        unique := true;
      }
    }

    /** Adds the ids of `contributorList` that are not yet present, then sorts. */
    method AddUniqueContributors(contributorList: Option<seq<int>>)
      requires contributors.Some?
      modifies this
      ensures contributors == Some(MergeContributors(old(contributors).value, contributorList))
    {
      ghost var unsorted := if contributorList.Some? then UniqueAppend(contributors.value, contributorList.value)
                            else contributors.value;
      if contributorList.Some? {
        AppendNewIds(contributorList.value);
      }
      ghost var built := contributors.value;
      contributors := Some(SortSeq(contributors.value));
      SortSeqCongruent(built, unsorted);
    }

    /** The loop of `addUniqueContributors`: appends each id of `list` not yet present. */
    method AppendNewIds(list: seq<int>)
      requires contributors.Some?
      modifies this
      ensures contributors.Some?
      ensures multiset(contributors.value) == multiset(UniqueAppend(old(contributors).value, list))
    {
      ghost var start := contributors.value;
      var k := 0;
      assert list[..0] == [];
      while k < |list|
        invariant 0 <= k <= |list|
        invariant contributors.Some?
        invariant multiset(contributors.value) == multiset(UniqueAppend(start, list[..k]))
      {
        ghost var acc := UniqueAppend(start, list[..k]);
        UniqueAppendStep(start, list, k);
        SameMembers(contributors.value, acc);
        AddIfNew(list[k]);
        k := k + 1;
      }
      assert list[..|list|] == list;
    }

    /** The body of that loop: add `contributor` when the list is empty or lacks it. */
    method AddIfNew(contributor: int)
      requires contributors.Some?
      modifies this
      ensures contributors.Some?
      ensures multiset(contributors.value) ==
              if contributor in old(contributors).value then multiset(old(contributors).value)
              else multiset(old(contributors).value) + multiset{contributor}
    {
      if |contributors.value| == 0 {
        contributors := Some(contributors.value + [contributor]);
      } else {
        ghost var before := contributors.value;
        var isUnique := IsContributorUnique(contributor);
        SortSeqPermutes(before);
        if isUnique {
          contributors := Some(contributors.value + [contributor]);
        }
      }
    }

    /** Appends `id1` and then `id2`, without sorting or removing repeats. */
    method AddInitialContributors(id1: int, id2: int)
      requires contributors.Some?
      modifies this
      ensures contributors == Some(old(contributors).value + [id1, id2])
    {
      contributors := Some(contributors.value + [id1]);
      contributors := Some(contributors.value + [id2]);
      assert old(contributors).value + [id1] + [id2] == old(contributors).value + [id1, id2];
    }
  }

  /** The values of a list of rectangles. */
  ghost function Values(rs: seq<Rectangle>): (vs: seq<Box>)
    reads rs
    ensures |vs| == |rs|
    ensures forall k {:trigger vs[k]} :: 0 <= k < |rs| ==> vs[k] == rs[k].Value()
  {
    if rs == [] then [] else Values(rs[..|rs| - 1]) + [rs[|rs| - 1].Value()]
  }
}
