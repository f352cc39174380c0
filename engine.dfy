/**
 * The search of src/main/java/intersections/IntersectionReporter.java on
 * values: one round of `generateIntersections`, the stopping rule
 * `noIntersections`, and the closure `getIntersections` that repeats rounds
 * until the stopping rule holds. The class in reporter.dfy is proved to
 * compute exactly these functions.
 *
 * A thrown exception (a degenerate intersection) ends the whole search; it is
 * the `Err` outcome here.
 */
module Engine {
  import opened Common
  import opened Sorting
  import opened Rectangles
  import opened Geometry

  predicate AllWellFormed(list: seq<Box>) {
    forall k :: 0 <= k < |list| ==> WellFormed(list[k])
  }

  /** What every element of `allIntersections` satisfies: a sorted list of an intersection rectangle. */
  predicate StoredBox(b: Box) {
    WellFormed(b) && b.id == 0 && b.contributors.Some? && Sorted(b.contributors.value)
  }

  predicate Stored(s: seq<Box>) {
    forall k :: 0 <= k < |s| ==> StoredBox(s[k])
  }

  /** `isUnique(candidate)`: every stored rectangle finds the candidate unique. */
  predicate AllUnique(stored: seq<Box>, candidate: Box)
    requires Stored(stored) && candidate.contributors.Some?
  {
    forall k :: 0 <= k < |stored| ==> IntersectionUnique(stored[k], candidate)
  }

  /** The candidate after both `addUniqueContributors` calls of `generateIntersections`. */
  function Absorb(candidate: Box, a: Box, b: Box): (r: Box)
    requires candidate.contributors.Some?
    ensures SameBounds(r, candidate) && r.id == candidate.id
    ensures r.contributors.Some? && Sorted(r.contributors.value)
    ensures forall c :: c in r.contributors.value <==>
                        c in candidate.contributors.value || c in Ids(a.contributors) || c in Ids(b.contributors)
  {
    var first := MergeContributors(candidate.contributors.value, a.contributors);
    var second := MergeContributors(first, b.contributors);
    MergeContents(candidate.contributors.value, a.contributors);
    MergeContents(first, b.contributors);
    candidate.(contributors := Some(second))
  }

  /** The body of the inner loop for the pair (i, j) of `list`. */
  function Step(list: seq<Box>, stored: seq<Box>, i: nat, j: nat): (r: Result<seq<Box>, Error>)
    requires AllWellFormed(list) && Stored(stored) && i < |list| && j < |list|
    ensures r.Ok? ==> Stored(r.value) && stored <= r.value && |r.value| <= |stored| + 1
  {
    var a := list[i];
    var b := list[j];
    if !OverlapPresent(a, b) then Ok(stored)
    else
      match FindIntersection(a, b)
      case Err(e) => Err(e)
      case Ok(c) =>
        if AllUnique(stored, c) then
          Ok(stored + [Absorb(c, a, b)])
        else
          Ok(stored)
  }

  /** The inner loop: `j` from `j` up to the snapshot `end`. */
  function Cols(list: seq<Box>, stored: seq<Box>, i: nat, j: nat, end: nat): (r: Result<seq<Box>, Error>)
    requires AllWellFormed(list) && Stored(stored) && i < end <= |list|
    decreases end - j
    ensures r.Ok? ==> Stored(r.value) && stored <= r.value
  {
    if j >= end then Ok(stored)
    else
      match Step(list, stored, i, j)
      case Err(e) => Err(e)
      case Ok(next) => Cols(list, next, i, j + 1, end)
  }

  /** The outer loop: `i` from `i` up to `end`, the inner one starting at the id of `list[i]`. */
  function Rows(list: seq<Box>, stored: seq<Box>, i: nat, end: nat): (r: Result<seq<Box>, Error>)
    requires AllWellFormed(list) && Stored(stored) && end <= |list|
    decreases end - i
    ensures r.Ok? ==> Stored(r.value) && stored <= r.value
  {
    if i >= end then Ok(stored)
    else
      match Cols(list, stored, i, list[i].id, end)
      case Err(e) => Err(e)
      case Ok(next) => Rows(list, next, i + 1, end)
  }

  /** `generateIntersections(list, start)`, on the stored list `stored`. */
  function Round(list: seq<Box>, stored: seq<Box>, start: nat): (r: Result<seq<Box>, Error>)
    requires AllWellFormed(list) && Stored(stored)
    ensures r.Ok? ==> Stored(r.value) && stored <= r.value
  {
    Rows(list, stored, start, |list|)
  }

  /** `noIntersections(k)`: no two entries at positions k <= i < j overlap. */
  predicate NoIntersections(s: seq<Box>, k: nat) {
    forall i, j {:trigger OverlapPresent(s[i], s[j])} :: k <= i < j < |s| ==> !OverlapPresent(s[i], s[j])
  }

  // ---------------------------------------------------------------------
  // Where stored rectangles come from

  function Lefts(inputs: seq<Box>): set<int> { set k | 0 <= k < |inputs| :: inputs[k].x }
  function Bottoms(inputs: seq<Box>): set<int> { set k | 0 <= k < |inputs| :: inputs[k].y }
  function Rights(inputs: seq<Box>): set<int> { set k | 0 <= k < |inputs| :: Right(inputs[k]) }
  function Tops(inputs: seq<Box>): set<int> { set k | 0 <= k < |inputs| :: Top(inputs[k]) }

  /** Every edge of `b` is the corresponding edge of some input. */
  predicate Within(b: Box, inputs: seq<Box>) {
    b.x in Lefts(inputs) && b.y in Bottoms(inputs) && Right(b) in Rights(inputs) && Top(b) in Tops(inputs)
  }

  predicate AllWithin(s: seq<Box>, inputs: seq<Box>) {
    forall k :: 0 <= k < |s| ==> Within(s[k], inputs)
  }

  /** `b` lies inside `outer`. */
  predicate Inside(b: Box, outer: Box) {
    outer.x <= b.x && Right(b) <= Right(outer) && outer.y <= b.y && Top(b) <= Top(outer)
  }

  /** The ids a rectangle stands for: its own id when it is an initial rectangle, else its contributors. */
  function Named(b: Box): seq<int> {
    if b.contributors.None? then [b.id] else b.contributors.value
  }

  /** Some input carries the id `d`. */
  predicate Carried(d: int, inputs: seq<Box>) {
    exists m :: 0 <= m < |inputs| && inputs[m].id == d
  }

  /** Every id `b` names belongs to an input, and `b` lies inside every input whose id it names. */
  predicate Sound(b: Box, inputs: seq<Box>) {
    (forall d :: d in Named(b) ==> Carried(d, inputs)) &&
    forall m {:trigger Inside(b, inputs[m])} :: 0 <= m < |inputs| && inputs[m].id in Named(b) ==> Inside(b, inputs[m])
  }

  predicate AllSound(s: seq<Box>, inputs: seq<Box>) {
    forall k :: 0 <= k < |s| ==> Sound(s[k], inputs)
  }

  /** Initial rectangles as the application builds them: null lists, distinct ids. */
  predicate InitialInputs(inputs: seq<Box>) {
    AllWellFormed(inputs) &&
    (forall k :: 0 <= k < |inputs| ==> inputs[k].contributors.None?) &&
    (forall m, k :: 0 <= m < k < |inputs| ==> inputs[m].id != inputs[k].id)
  }

  lemma InputsWithin(inputs: seq<Box>)
    ensures AllWithin(inputs, inputs)
  {
    forall k | 0 <= k < |inputs| ensures Within(inputs[k], inputs) {
      var b := inputs[k];
      assert b.x in Lefts(inputs) && b.y in Bottoms(inputs);
      assert Right(b) in Rights(inputs) && Top(b) in Tops(inputs);
    }
  }

  lemma InputsSound(inputs: seq<Box>)
    requires InitialInputs(inputs)
    ensures AllSound(inputs, inputs)
  {
    forall k | 0 <= k < |inputs| ensures Sound(inputs[k], inputs) {
      forall m | 0 <= m < |inputs| && inputs[m].id in Named(inputs[k]) ensures Inside(inputs[k], inputs[m]) {
        assert inputs[m].id == inputs[k].id;
        assert m == k;
      }
      forall d | d in Named(inputs[k]) ensures Carried(d, inputs) {
        assert inputs[k].id == d;
      }
    }
  }

  /** The merged candidate takes each edge from one of its two parents. */
  lemma CandidateWithin(inputs: seq<Box>, a: Box, b: Box)
    requires WellFormed(a) && WellFormed(b) && FindIntersection(a, b).Ok?
    requires Within(a, inputs) && Within(b, inputs)
    ensures Within(Absorb(FindIntersection(a, b).value, a, b), inputs)
  {
    var n := Absorb(FindIntersection(a, b).value, a, b);
    assert n.x == Max(a.x, b.x) && n.y == Max(a.y, b.y);
    assert Right(n) == Min(Right(a), Right(b)) && Top(n) == Min(Top(a), Top(b));
  }

  /** The merged candidate names only ids its parents name, and lies inside both parents. */
  lemma CandidateSound(inputs: seq<Box>, a: Box, b: Box)
    requires WellFormed(a) && WellFormed(b) && FindIntersection(a, b).Ok?
    requires Sound(a, inputs) && Sound(b, inputs)
    ensures Sound(Absorb(FindIntersection(a, b).value, a, b), inputs)
  {
    var c := FindIntersection(a, b).value;
    var n := Absorb(c, a, b);
    IntersectionInside(a, b);
    assert Inside(n, a) && Inside(n, b);
    forall m | 0 <= m < |inputs| && inputs[m].id in Named(n) ensures Inside(n, inputs[m]) {
      var d := inputs[m].id;
      assert d in c.contributors.value || d in Ids(a.contributors) || d in Ids(b.contributors);
      if d in Named(a) {
        assert Inside(a, inputs[m]);
      } else {
        assert d in Named(b);
        assert Inside(b, inputs[m]);
      }
    }
    forall d | d in Named(n) ensures Carried(d, inputs) {
      assert d in c.contributors.value || d in Ids(a.contributors) || d in Ids(b.contributors);
      if d !in Named(a) {
        assert d in Named(b);
      }
    }
  }

  /** What one step can do: store nothing, or store the merged candidate of the pair. */
  lemma StepCases(list: seq<Box>, stored: seq<Box>, i: nat, j: nat)
    requires AllWellFormed(list) && Stored(stored) && i < |list| && j < |list|
    requires Step(list, stored, i, j).Ok?
    ensures var r := Step(list, stored, i, j).value;
            r == stored ||
            (FindIntersection(list[i], list[j]).Ok? &&
             r == stored + [Absorb(FindIntersection(list[i], list[j]).value, list[i], list[j])])
  {
  }

  lemma StepKeeps(inputs: seq<Box>, list: seq<Box>, stored: seq<Box>, i: nat, j: nat)
    requires AllWellFormed(list) && Stored(stored) && i < |list| && j < |list|
    requires AllWithin(list, inputs) && AllWithin(stored, inputs)
    requires Step(list, stored, i, j).Ok?
    ensures AllWithin(Step(list, stored, i, j).value, inputs)
    ensures AllSound(list, inputs) && AllSound(stored, inputs) ==> AllSound(Step(list, stored, i, j).value, inputs)
  {
    var r := Step(list, stored, i, j).value;
    StepCases(list, stored, i, j);
    if r != stored {
      var a, b := list[i], list[j];
      CandidateKeeps(inputs, stored, a, b, r);
    }
  }

  lemma AppendKeeps(inputs: seq<Box>, stored: seq<Box>, n: Box)
    requires AllWithin(stored, inputs) && Within(n, inputs)
    ensures AllWithin(stored + [n], inputs)
    ensures AllSound(stored, inputs) && Sound(n, inputs) ==> AllSound(stored + [n], inputs)
  {
    forall k | 0 <= k < |stored| + 1 ensures (stored + [n])[k] == if k < |stored| then stored[k] else n {
    }
  }

  lemma CandidateKeeps(inputs: seq<Box>, stored: seq<Box>, a: Box, b: Box, r: seq<Box>)
    requires WellFormed(a) && WellFormed(b) && FindIntersection(a, b).Ok?
    requires r == stored + [Absorb(FindIntersection(a, b).value, a, b)]
    requires Within(a, inputs) && Within(b, inputs) && AllWithin(stored, inputs)
    ensures AllWithin(r, inputs)
    ensures Sound(a, inputs) && Sound(b, inputs) && AllSound(stored, inputs) ==> AllSound(r, inputs)
  {
    var n := Absorb(FindIntersection(a, b).value, a, b);
    CandidateWithin(inputs, a, b);
    if Sound(a, inputs) && Sound(b, inputs) {
      CandidateSound(inputs, a, b);
    }
    AppendKeeps(inputs, stored, n);
  }

  lemma {:induction false} ColsKeeps(inputs: seq<Box>, list: seq<Box>, stored: seq<Box>, i: nat, j: nat, end: nat)
    requires AllWellFormed(list) && Stored(stored) && i < end <= |list|
    requires AllWithin(list, inputs) && AllWithin(stored, inputs)
    requires Cols(list, stored, i, j, end).Ok?
    ensures AllWithin(Cols(list, stored, i, j, end).value, inputs)
    ensures AllSound(list, inputs) && AllSound(stored, inputs) ==> AllSound(Cols(list, stored, i, j, end).value, inputs)
    decreases end - j
  {
    if j < end {
      StepKeeps(inputs, list, stored, i, j);
      ColsKeeps(inputs, list, Step(list, stored, i, j).value, i, j + 1, end);
    }
  }

  /** A round keeps every stored rectangle within the input edges, and sound when its list is. */
  lemma {:induction false} RowsKeeps(inputs: seq<Box>, list: seq<Box>, stored: seq<Box>, i: nat, end: nat)
    requires AllWellFormed(list) && Stored(stored) && end <= |list|
    requires AllWithin(list, inputs) && AllWithin(stored, inputs)
    requires Rows(list, stored, i, end).Ok?
    ensures AllWithin(Rows(list, stored, i, end).value, inputs)
    ensures AllSound(list, inputs) && AllSound(stored, inputs) ==> AllSound(Rows(list, stored, i, end).value, inputs)
    decreases end - i
  {
    if i < end {
      ColsKeeps(inputs, list, stored, i, list[i].id, end);
      RowsKeeps(inputs, list, Cols(list, stored, i, list[i].id, end).value, i + 1, end);
    }
  }

  // ---------------------------------------------------------------------
  // After the first round, only new bounds are stored

  /** No entry from position `n` on repeats the bounds of an earlier entry. */
  predicate FreshFrom(s: seq<Box>, n: nat) {
    forall m, k :: 0 <= m < k < |s| && n <= k ==> !SameBounds(s[m], s[k])
  }

  /**
   * A round over stored intersections tests candidates whose list is still
   * empty, which every stored rectangle of equal bounds rejects.
   */
  lemma {:induction false} StepFresh(list: seq<Box>, stored: seq<Box>, i: nat, j: nat, n: nat)
    requires AllWellFormed(list) && Stored(list) && Stored(stored) && i < |list| && j < |list|
    requires n <= |stored| && FreshFrom(stored, n)
    requires Step(list, stored, i, j).Ok?
    ensures FreshFrom(Step(list, stored, i, j).value, n)
  {
    var r := Step(list, stored, i, j).value;
    if |r| > |stored| {
      var c := FindIntersection(list[i], list[j]).value;
      assert c.contributors == Some([]);
      forall m | 0 <= m < |stored| ensures !SameBounds(stored[m], r[|stored|]) {
        assert IntersectionUnique(stored[m], c);
      }
    } else {
      assert r == stored;
    }
  }

  lemma {:induction false} ColsFresh(list: seq<Box>, stored: seq<Box>, i: nat, j: nat, end: nat, n: nat)
    requires AllWellFormed(list) && Stored(list) && Stored(stored) && i < end <= |list|
    requires n <= |stored| && FreshFrom(stored, n)
    requires Cols(list, stored, i, j, end).Ok?
    ensures FreshFrom(Cols(list, stored, i, j, end).value, n)
    decreases end - j
  {
    if j < end {
      StepFresh(list, stored, i, j, n);
      ColsFresh(list, Step(list, stored, i, j).value, i, j + 1, end, n);
    }
  }

  /** In a round over stored intersections, no appended rectangle repeats stored bounds. */
  lemma {:induction false} RowsFresh(list: seq<Box>, stored: seq<Box>, i: nat, end: nat, n: nat)
    requires AllWellFormed(list) && Stored(list) && Stored(stored) && end <= |list|
    requires n <= |stored| && FreshFrom(stored, n)
    requires Rows(list, stored, i, end).Ok?
    ensures FreshFrom(Rows(list, stored, i, end).value, n)
    decreases end - i
  {
    if i < end {
      ColsFresh(list, stored, i, list[i].id, end, n);
      RowsFresh(list, Cols(list, stored, i, list[i].id, end).value, i + 1, end, n);
    }
  }

  // ---------------------------------------------------------------------
  // The closure and its termination

  /** The left, bottom, right and top edges. */
  function BoundsOf(b: Box): (int, int, int, int) {
    (b.x, b.y, Right(b), Top(b))
  }

  function BoundsSet(s: seq<Box>): set<(int, int, int, int)> {
    set k | 0 <= k < |s| :: BoundsOf(s[k])
  }

  /** Every combination of input edges: the bounds a stored rectangle can have. */
  function Universe(inputs: seq<Box>): set<(int, int, int, int)> {
    set l, b, r, t | l in Lefts(inputs) && b in Bottoms(inputs) && r in Rights(inputs) && t in Tops(inputs) :: (l, b, r, t)
  }

  lemma BoundsInUniverse(inputs: seq<Box>, s: seq<Box>)
    requires AllWithin(s, inputs)
    ensures BoundsSet(s) <= Universe(inputs)
  {
    forall k | 0 <= k < |s| ensures BoundsOf(s[k]) in Universe(inputs) {
      assert Within(s[k], inputs);
    }
  }

  lemma SmallerDifference<T>(u: set<T>, small: set<T>, large: set<T>, x: T)
    requires small <= large && x in large && x !in small && x in u
    ensures |u - large| < |u - small|
  {
    var a, b := u - large, u - small;
    assert a <= b && x in b - a;
    assert b == a + (b - a);
    assert |b| == |a| + |b - a|;
  }

  /**
   * A later round either stores nothing, and then finds no overlap from its
   * starting point on, or stores bounds not stored before.
   */
  lemma RoundProgress(inputs: seq<Box>, stored: seq<Box>, last: nat, next: seq<Box>)
    requires AllWellFormed(stored) && Stored(stored) && AllWithin(stored, inputs)
    requires last == |stored| - 1
    requires Round(stored, stored, last) == Ok(next)
    ensures AllWithin(next, inputs)
    ensures |next| == |stored| ==> next == stored && NoIntersections(next, last)
    ensures |next| > |stored| ==> |Universe(inputs) - BoundsSet(next)| < |Universe(inputs) - BoundsSet(stored)|
  {
    RowsKeeps(inputs, stored, stored, last, |stored|);
    if |next| > |stored| {
      assert FreshFrom(stored, |stored|);
      RowsFresh(stored, stored, last, |stored|, |stored|);
      var newBounds := BoundsOf(next[|stored|]);
      assert newBounds !in BoundsSet(stored) by {
        forall m | 0 <= m < |stored| ensures BoundsOf(stored[m]) != newBounds {
          assert stored[m] == next[m];
          assert !SameBounds(next[m], next[|stored|]);
        }
      }
      assert BoundsSet(stored) <= BoundsSet(next) by {
        forall m | 0 <= m < |stored| ensures BoundsOf(stored[m]) in BoundsSet(next) {
          assert stored[m] == next[m];
        }
      }
      assert newBounds in BoundsSet(next);
      BoundsInUniverse(inputs, next);
      SmallerDifference(Universe(inputs), BoundsSet(stored), BoundsSet(next), newBounds);
    } else {
      assert next == stored;
    }
  }

  /**
   * The recursive `getIntersections(noIntersections, lastIntersection)`:
   * while overlaps remain, run a round from the newest stored rectangle.
   */
  function Continue(inputs: seq<Box>, stored: seq<Box>, noIntersections: bool, last: int): (r: Result<seq<Box>, Error>)
    requires Stored(stored) && AllWithin(stored, inputs)
    requires last == |stored| - 1 && (!noIntersections ==> |stored| > 0)
    ensures r.Ok? ==> Stored(r.value) && stored <= r.value
    decreases |Universe(inputs) - BoundsSet(stored)|, if noIntersections then 0 else 1
  {
    if noIntersections then Ok(stored)
    else
      assert AllWellFormed(stored);
      match Round(stored, stored, last)
      case Err(e) => Err(e)
      case Ok(next) =>
        RoundProgress(inputs, stored, last, next);
        RowsKeeps(inputs, stored, stored, last, |stored|);
        Continue(inputs, next, NoIntersections(next, last), |next| - 1)
  }

  /** Round 1 keeps the stored rectangles within the input edges, and leaves some when it finds an overlap. */
  lemma FirstRound(inputs: seq<Box>, stored: seq<Box>, first: seq<Box>)
    requires AllWellFormed(inputs) && Stored(stored) && AllWithin(stored, inputs)
    requires Round(inputs, stored, 0) == Ok(first)
    ensures Stored(first) && AllWithin(first, inputs)
    ensures !NoIntersections(first, 0) ==> |first| > 0
    ensures InitialInputs(inputs) && AllSound(stored, inputs) ==> AllSound(first, inputs)
  {
    InputsWithin(inputs);
    if InitialInputs(inputs) {
      InputsSound(inputs);
    }
    RowsKeeps(inputs, inputs, stored, 0, |inputs|);
  }

  /**
   * `getIntersections()` on a reporter whose list already holds `stored`
   * (empty on the first call): round 1 over the inputs, then the recursion.
   */
  function Search(inputs: seq<Box>, stored: seq<Box>): (r: Result<seq<Box>, Error>)
    requires AllWellFormed(inputs) && Stored(stored) && AllWithin(stored, inputs)
    ensures r.Ok? ==> Stored(r.value) && stored <= r.value
  {
    match Round(inputs, stored, 0)
    case Err(e) => Err(e)
    case Ok(first) =>
      FirstRound(inputs, stored, first);
      Continue(inputs, first, NoIntersections(first, 0), |first| - 1)
  }

  /**
   * The result of `getIntersections()` on a new reporter.
   */
  function GetIntersections(inputs: seq<Box>): (r: Result<seq<Box>, Error>)
    requires AllWellFormed(inputs)
    ensures r.Ok? ==> Stored(r.value)
  {
    Search(inputs, [])
  }

  /** The recursion unfolded once, with the round's result named. */
  lemma {:induction false} ContinueUnfold(inputs: seq<Box>, stored: seq<Box>, next: seq<Box>)
    requires Stored(stored) && AllWellFormed(stored) && AllWithin(stored, inputs) && |stored| > 0
    requires AllWithin(next, inputs)
    requires Round(stored, stored, |stored| - 1) == Ok(next)
    ensures Continue(inputs, stored, false, |stored| - 1) ==
            Continue(inputs, next, NoIntersections(next, |stored| - 1), |next| - 1)
  {
    var last := |stored| - 1;
    var none := NoIntersections(next, last);
    assert Continue(inputs, stored, false, last) == Continue(inputs, next, none, |next| - 1);
  }

  /** One level of the recursion: a round that runs from the newest stored rectangle. */
  lemma {:induction false} ContinueStep(inputs: seq<Box>, stored: seq<Box>, next: seq<Box>)
    requires Stored(stored) && AllWellFormed(stored) && AllWithin(stored, inputs) && |stored| > 0
    requires Round(stored, stored, |stored| - 1) == Ok(next)
    ensures Stored(next) && AllWithin(next, inputs)
    ensures Continue(inputs, stored, false, |stored| - 1) ==
            Continue(inputs, next, NoIntersections(next, |stored| - 1), |next| - 1)
  {
    var last := |stored| - 1;
    assert Round(stored, stored, last) == Rows(stored, stored, last, |stored|);
    RowsKeeps(inputs, stored, stored, last, |stored|);
    ContinueUnfold(inputs, stored, next);
  }

  /** The base case of the recursion. */
  lemma {:induction false} ContinueStop(inputs: seq<Box>, stored: seq<Box>)
    requires Stored(stored) && AllWithin(stored, inputs)
    ensures Continue(inputs, stored, true, |stored| - 1) == Ok(stored)
  {
  }

  /** A round that fails makes the recursion fail with the same error. */
  lemma {:induction false} ContinueFails(inputs: seq<Box>, stored: seq<Box>)
    requires Stored(stored) && AllWellFormed(stored) && AllWithin(stored, inputs) && |stored| > 0
    requires Round(stored, stored, |stored| - 1).Err?
    ensures Continue(inputs, stored, false, |stored| - 1) == Err(Round(stored, stored, |stored| - 1).error)
  {
  }

  /** `failure` and `contents` are what a run ending in `r` leaves: no failure and the list `r.value`, or `r`'s error. */
  predicate Reports(failure: Option<Error>, contents: seq<Box>, r: Result<seq<Box>, Error>) {
    (failure.None? <==> r.Ok?) &&
    (failure.None? ==> contents == r.value) &&
    (failure.Some? ==> failure.value == r.error)
  }

  /** What the rest of the recursion reports after one successful round is what the whole recursion reports. */
  lemma {:induction false} ContinueChain(inputs: seq<Box>, stored: seq<Box>, last: int, next: seq<Box>, none: bool,
                                         nextLast: int, failure: Option<Error>, contents: seq<Box>)
    requires Stored(stored) && AllWellFormed(stored) && AllWithin(stored, inputs)
    requires last == |stored| - 1 >= 0 && Round(stored, stored, last) == Ok(next)
    requires Stored(next) && AllWithin(next, inputs)
    requires none == NoIntersections(next, last) && nextLast == |next| - 1
    requires Reports(failure, contents, Continue(inputs, next, none, nextLast))
    ensures Reports(failure, contents, Continue(inputs, stored, false, last))
  {
    ContinueStep(inputs, stored, next);
  }

  /** What the recursion reports after a successful round 1 is what the search reports. */
  lemma {:induction false} SearchChain(inputs: seq<Box>, stored: seq<Box>, first: seq<Box>, none: bool, last: int,
                                       failure: Option<Error>, contents: seq<Box>)
    requires AllWellFormed(inputs) && Stored(stored) && AllWithin(stored, inputs)
    requires Round(inputs, stored, 0) == Ok(first)
    requires Stored(first) && AllWithin(first, inputs)
    requires none == NoIntersections(first, 0) && last == |first| - 1
    requires Reports(failure, contents, Continue(inputs, first, none, last))
    ensures Reports(failure, contents, Search(inputs, stored))
  {
    if |first| > 0 {
      SearchFirstRound(inputs, stored, first);
    }
  }

  /** The search unfolded once, with round 1's result named. */
  lemma {:induction false} SearchFirstRound(inputs: seq<Box>, stored: seq<Box>, first: seq<Box>)
    requires AllWellFormed(inputs) && Stored(stored) && AllWithin(stored, inputs)
    requires Round(inputs, stored, 0) == Ok(first)
    requires Stored(first) && AllWithin(first, inputs) && |first| > 0
    ensures Search(inputs, stored) == Continue(inputs, first, NoIntersections(first, 0), |first| - 1)
  {
    var start := NoIntersections(first, 0);
    assert Search(inputs, stored) == Continue(inputs, first, start, |first| - 1);
  }

    /** One round of the recursion, with what the properties of the whole recursion need of it. */
  lemma WithinRound(inputs: seq<Box>, stored: seq<Box>, last: int, r: seq<Box>) returns (next: seq<Box>, none: bool)
    requires Stored(stored) && AllWithin(stored, inputs) && last == |stored| - 1 >= 0
    requires Continue(inputs, stored, false, last) == Ok(r)
    ensures Round(stored, stored, last) == Ok(next)
    ensures Stored(next) && AllWithin(next, inputs)
    ensures !none ==> |next| > 0
    ensures |Universe(inputs) - BoundsSet(next)| < |Universe(inputs) - BoundsSet(stored)| ||
            (next == stored && none)
    ensures Continue(inputs, next, none, |next| - 1) == Ok(r)
  {
    assert AllWellFormed(stored);
    next := Round(stored, stored, last).value;
    none := NoIntersections(next, last);
    RoundProgress(inputs, stored, last, next);
    ContinueUnfold(inputs, stored, next);
  }

  /** The same round also keeps every stored rectangle sound. */
  lemma SoundRound(inputs: seq<Box>, stored: seq<Box>, last: int, r: seq<Box>) returns (next: seq<Box>, none: bool)
    requires Stored(stored) && AllWithin(stored, inputs) && last == |stored| - 1 >= 0
    requires AllSound(stored, inputs)
    requires Continue(inputs, stored, false, last) == Ok(r)
    ensures Stored(next) && AllWithin(next, inputs) && AllSound(next, inputs)
    ensures !none ==> |next| > 0
    ensures |Universe(inputs) - BoundsSet(next)| < |Universe(inputs) - BoundsSet(stored)| ||
            (next == stored && none)
    ensures Continue(inputs, next, none, |next| - 1) == Ok(r)
  {
    next, none := WithinRound(inputs, stored, last, r);
    RowsKeeps(inputs, stored, stored, last, |stored|);
  }

  /** Every round of the recursion keeps each stored rectangle inside the inputs it names. */
  lemma {:induction false} ContinueSound(inputs: seq<Box>, stored: seq<Box>, noIntersections: bool, last: int,
                                         r: seq<Box>)
    requires Stored(stored) && AllWithin(stored, inputs)
    requires last == |stored| - 1 && (!noIntersections ==> |stored| > 0)
    requires AllSound(stored, inputs)
    requires Continue(inputs, stored, noIntersections, last) == Ok(r)
    ensures AllSound(r, inputs)
    decreases |Universe(inputs) - BoundsSet(stored)|, if noIntersections then 0 else 1
  {
    if !noIntersections {
      var next, none := SoundRound(inputs, stored, last, r);
      ContinueSound(inputs, next, none, |next| - 1, r);
    }
  }

  /** Every round of the recursion keeps the stored rectangles within the input edges. */
  lemma {:induction false} ContinueWithin(inputs: seq<Box>, stored: seq<Box>, noIntersections: bool, last: int,
                                          r: seq<Box>)
    requires Stored(stored) && AllWithin(stored, inputs)
    requires last == |stored| - 1 && (!noIntersections ==> |stored| > 0)
    requires Continue(inputs, stored, noIntersections, last) == Ok(r)
    ensures AllWithin(r, inputs)
    decreases |Universe(inputs) - BoundsSet(stored)|, if noIntersections then 0 else 1
  {
    if !noIntersections {
      var next, none := WithinRound(inputs, stored, last, r);
      ContinueWithin(inputs, next, none, |next| - 1, r);
    }
  }

  /** So does the whole search. */
  lemma SearchWithin(inputs: seq<Box>, stored: seq<Box>)
    requires AllWellFormed(inputs) && Stored(stored) && AllWithin(stored, inputs)
    requires Search(inputs, stored).Ok?
    ensures AllWithin(Search(inputs, stored).value, inputs)
  {
    var first := Round(inputs, stored, 0).value;
    FirstRound(inputs, stored, first);
    ContinueWithin(inputs, first, NoIntersections(first, 0), |first| - 1, Search(inputs, stored).value);
  }

  /** For initial inputs, the search keeps each stored rectangle inside the inputs it names. */
  lemma SearchSound(inputs: seq<Box>, stored: seq<Box>)
    requires AllWellFormed(inputs) && Stored(stored) && AllWithin(stored, inputs)
    requires InitialInputs(inputs) && AllSound(stored, inputs)
    requires Search(inputs, stored).Ok?
    ensures AllSound(Search(inputs, stored).value, inputs)
  {
    var first := Round(inputs, stored, 0).value;
    FirstRound(inputs, stored, first);
    ContinueSound(inputs, first, NoIntersections(first, 0), |first| - 1, Search(inputs, stored).value);
  }

  /**
   * For initial inputs with distinct ids, every id a result rectangle lists
   * is the id of an input, and every input whose id it lists contains it.
   */
  lemma GetIntersectionsSound(inputs: seq<Box>)
    requires InitialInputs(inputs) && GetIntersections(inputs).Ok?
    ensures var r := GetIntersections(inputs).value;
            forall k, d :: 0 <= k < |r| && d in r[k].contributors.value ==>
                           exists m :: 0 <= m < |inputs| && inputs[m].id == d
    ensures var r := GetIntersections(inputs).value;
            forall k, m :: 0 <= k < |r| && 0 <= m < |inputs| && inputs[m].id in r[k].contributors.value ==>
                           Inside(r[k], inputs[m])
  {
    var r := GetIntersections(inputs).value;
    SearchSound(inputs, []);
    forall k, d | 0 <= k < |r| && d in r[k].contributors.value
      ensures exists m :: 0 <= m < |inputs| && inputs[m].id == d
    {
      assert Sound(r[k], inputs);
      assert Named(r[k]) == r[k].contributors.value;
      assert Carried(d, inputs);
    }
    forall k, m | 0 <= k < |r| && 0 <= m < |inputs| && inputs[m].id in r[k].contributors.value
      ensures Inside(r[k], inputs[m])
    {
      assert Sound(r[k], inputs);
      assert Named(r[k]) == r[k].contributors.value;
    }
  }

  // ---------------------------------------------------------------------
  // What the result means

  /** Some stored rectangle has the bounds of `c` and lists every id `c` lists. */
  predicate Reported(s: seq<Box>, c: Box)
    requires Stored(s) && c.contributors.Some?
  {
    exists k :: 0 <= k < |s| && SameBounds(s[k], c) &&
                forall d :: d in c.contributors.value ==> d in s[k].contributors.value
  }

  /** The pair (i, j) of `list`, when its intersection has positive area, is reported in `s`. */
  predicate PairReported(list: seq<Box>, s: seq<Box>, i: nat, j: nat)
    requires AllWellFormed(list) && Stored(s) && i < |list| && j < |list|
  {
    FindIntersection(list[i], list[j]).Ok? ==> Reported(s, FindIntersection(list[i], list[j]).value)
  }

  lemma ReportedExtends(s: seq<Box>, t: seq<Box>, c: Box)
    requires Stored(s) && Stored(t) && c.contributors.Some? && s <= t
    requires Reported(s, c)
    ensures Reported(t, c)
  {
    var k :| 0 <= k < |s| && SameBounds(s[k], c) &&
             forall d :: d in c.contributors.value ==> d in s[k].contributors.value;
    assert t[k] == s[k];
  }

  /** After the step for (i, j), the pair is reported: stored now, or already stored with all its ids. */
  lemma StepReports(list: seq<Box>, stored: seq<Box>, i: nat, j: nat)
    requires AllWellFormed(list) && Stored(stored) && i < |list| && j < |list|
    requires Step(list, stored, i, j).Ok?
    ensures PairReported(list, Step(list, stored, i, j).value, i, j)
  {
    var a, b := list[i], list[j];
    var r := Step(list, stored, i, j).value;
    if FindIntersection(a, b).Ok? {
      var c := FindIntersection(a, b).value;
      IntersectionImpliesOverlap(a, b);
      if AllUnique(stored, c) {
        assert r[|stored|] == Absorb(c, a, b);
        assert SameBounds(r[|stored|], c);
      } else {
        var k :| 0 <= k < |stored| && !IntersectionUnique(stored[k], c);
        assert r == stored;
        assert SameBounds(r[k], c);
        forall d | d in c.contributors.value ensures d in r[k].contributors.value {
          assert !HasNewContributor(Ids(stored[k].contributors), c.contributors.value);
        }
      }
    }
  }

  lemma {:induction false} ColsReports(list: seq<Box>, stored: seq<Box>, i: nat, j: nat, end: nat)
    requires AllWellFormed(list) && Stored(stored) && i < end <= |list|
    requires Cols(list, stored, i, j, end).Ok?
    ensures forall j' :: j <= j' < end ==> PairReported(list, Cols(list, stored, i, j, end).value, i, j')
    decreases end - j
  {
    if j < end {
      var next := Step(list, stored, i, j).value;
      var r := Cols(list, stored, i, j, end).value;
      StepReports(list, stored, i, j);
      ColsReports(list, next, i, j + 1, end);
      if FindIntersection(list[i], list[j]).Ok? {
        ReportedExtends(next, r, FindIntersection(list[i], list[j]).value);
      }
    }
  }

  lemma {:induction false} RowsReports(list: seq<Box>, stored: seq<Box>, i: nat, end: nat)
    requires AllWellFormed(list) && Stored(stored) && end <= |list|
    requires Rows(list, stored, i, end).Ok?
    ensures forall i', j' :: i <= i' < end && list[i'].id <= j' < end ==>
                             PairReported(list, Rows(list, stored, i, end).value, i', j')
    decreases end - i
  {
    if i < end {
      var next := Cols(list, stored, i, list[i].id, end).value;
      var r := Rows(list, stored, i, end).value;
      ColsReports(list, stored, i, list[i].id, end);
      RowsReports(list, next, i + 1, end);
      forall j' | list[i].id <= j' < end && FindIntersection(list[i], list[j']).Ok?
        ensures Reported(r, FindIntersection(list[i], list[j']).value)
      {
        assert PairReported(list, next, i, j');
        ReportedExtends(next, r, FindIntersection(list[i], list[j']).value);
      }
    }
  }

  /**
   * Completeness of round 1: every pair (i, j) of inputs with
   * `inputs[i].id <= j` whose intersection has positive area ends up
   * reported with the bounds of that intersection and both seeded ids.
   */
  lemma GetIntersectionsReportsPairs(inputs: seq<Box>)
    requires AllWellFormed(inputs)
    requires GetIntersections(inputs).Ok?
    ensures forall i, j :: 0 <= i < |inputs| && inputs[i].id <= j < |inputs| ==>
                           PairReported(inputs, GetIntersections(inputs).value, i, j)
  {
    var first := Round(inputs, [], 0).value;
    var r := GetIntersections(inputs).value;
    FirstRound(inputs, [], first);
    assert r == Search(inputs, []).value;
    RowsReports(inputs, [], 0, |inputs|);
    forall i, j | 0 <= i < |inputs| && inputs[i].id <= j < |inputs| && FindIntersection(inputs[i], inputs[j]).Ok?
      ensures Reported(r, FindIntersection(inputs[i], inputs[j]).value)
    {
      assert PairReported(inputs, first, i, j);
      ReportedExtends(first, r, FindIntersection(inputs[i], inputs[j]).value);
    }
  }

  /** A reported pair of initial rectangles is reported with both their ids. */
  lemma ReportedWithBothIds(inputs: seq<Box>, r: seq<Box>, i: nat, j: nat)
    requires AllWellFormed(inputs) && Stored(r) && i < |inputs| && j < |inputs|
    requires inputs[i].contributors.None? && inputs[j].contributors.None?
    requires FindIntersection(inputs[i], inputs[j]).Ok? && PairReported(inputs, r, i, j)
    ensures exists k :: 0 <= k < |r| && SameBounds(r[k], FindIntersection(inputs[i], inputs[j]).value) &&
                        inputs[i].id in r[k].contributors.value && inputs[j].id in r[k].contributors.value
  {
    var c := FindIntersection(inputs[i], inputs[j]).value;
    assert c.contributors.value == [inputs[i].id, inputs[j].id];
    var k :| 0 <= k < |r| && SameBounds(r[k], c) && forall d :: d in c.contributors.value ==> d in r[k].contributors.value;
    assert inputs[i].id in c.contributors.value && inputs[j].id in c.contributors.value;
  }

  /**
   * With ids 1..n in input order, as the application assigns them, every
   * pair i < j of initial rectangles overlapping with positive area is
   * reported by a rectangle of exactly their intersection's bounds that
   * lists both their ids.
   */
  lemma NumberedInputsReportAllPairs(inputs: seq<Box>, r: seq<Box>)
    requires InitialInputs(inputs)
    requires forall k :: 0 <= k < |inputs| ==> inputs[k].id == k + 1
    requires GetIntersections(inputs) == Ok(r)
    ensures forall i, j :: 0 <= i < j < |inputs| && FindIntersection(inputs[i], inputs[j]).Ok? ==>
              exists k :: 0 <= k < |r| && SameBounds(r[k], FindIntersection(inputs[i], inputs[j]).value) &&
                          i + 1 in r[k].contributors.value && j + 1 in r[k].contributors.value
  {
    GetIntersectionsReportsPairs(inputs);
    forall i, j | 0 <= i < j < |inputs| && FindIntersection(inputs[i], inputs[j]).Ok?
      ensures exists k :: 0 <= k < |r| && SameBounds(r[k], FindIntersection(inputs[i], inputs[j]).value) &&
                          i + 1 in r[k].contributors.value && j + 1 in r[k].contributors.value
    {
      assert inputs[i].id == i + 1 && inputs[j].id == j + 1;
      assert PairReported(inputs, r, i, j);
      ReportedWithBothIds(inputs, r, i, j);
    }
  }
}
