# Rectangle intersections

A Dafny model of the intersection finder in `src/main/java/intersections/`.
The program reads axis-aligned rectangles and reports every rectangle that is
the intersection of two or more of them, together with the ids of the input
rectangles that contribute to it.

The model has two layers.

- **Values.** `Rectangles.Box` is one rectangle's state. The module `Engine`
  describes on these values what `IntersectionReporter` computes: the pair
  step of `generateIntersections`, its two loops, one round, the stopping
  rule `noIntersections`, the recursion `getIntersections(boolean, int)` and
  the entry point `getIntersections()`.
- **Objects.** The classes `Rectangles.Rectangle` and
  `Reporter.IntersectionReporter` keep the source's fields and update them in
  place: the contributor list with its sorts and appends, the list
  `allIntersections`, and the counter `lastIntersection`. The reporter's
  methods are proved to leave exactly the state the `Engine` functions give
  for the values of its rectangles. The contributor-list methods of
  `Rectangle` are proved against `Rectangles.MergeContributors` and the sort.
  After a successful search the reporter can be searched again: the stored
  rectangles are new objects and stay within the input edges.

Thrown exceptions are `Err` results (`Common.Error`). This covers the
constructor's parameter check, the null checks of the reporter's
constructor, and the `findIntersection` exception that ends a whole search.

The whole-search properties concern inputs built as the application builds
them (`src/main/java/intersections/App.java:168`): contributor list null, ids
`1..n` in input order. For those inputs the model proves three things:

- round 1 reports every overlapping pair with its two ids;
- every id a reported rectangle lists is the id of an input, and every input
  whose id it lists contains it;
- the search terminates, because each later round that stores something
  stores bounds made of input edges that were not stored before.

The four-rectangle example of the test suite is worked through round by
round. It ends with the seven rectangles the test expects.

Three behaviours of the code that the model keeps as written:

- A pair whose edges only touch passes `overlapPresent`. `findIntersection`
  then throws, and the exception leaves `getIntersections()`. The model
  returns `Err(NegativeOverlap)` for the whole search; it does not skip the
  pair.
- The search stops when `noIntersections` finds no overlapping pair in the
  suffix of the list from the previous `lastIntersection - 1` on. It does
  not stop on "a round added nothing".
- Later rounds use only the newest stored rectangle as the first rectangle
  of each pair. The inner loop starts at `rectangle1.getId()`, which is 0 for
  intersection rectangles.

Files:

- `common.dfy`: `Option`, `Result`, `Error`.
- `sorting.dfy`: `Collections.sort` as `SortSeq`, and `Collections.binarySearch`.
- `rectangle.dfy`: `Box`, the duplicate test, the contributor merge, class `Rectangle`.
- `geometry.dfy`: `overlapPresent`, `findIntersection`.
- `engine.dfy`: the search on values and its properties.
- `reporter.dfy`: class `IntersectionReporter`.
- `examples_oracle.dfy`: the four-rectangle example.
- `examples_unit.dfy`: the single-call examples of the tests.

## Model

| member | source | states |
|---|---|---|
| Rectangles.Rectangle.NewInitial | src/main/java/intersections/Rectangle.java:35-46 | fails with `NonPositiveParameter` exactly when deltaX, deltaY, x or y is <= 0 or id < 0; otherwise a fresh rectangle with the given fields and a null contributor list |
| Rectangles.Rectangle.NewIntersection | src/main/java/intersections/Rectangle.java:50-53 | the same check with id 0; otherwise id 0 and an empty contributor list |
| Rectangles.Rectangle.Initial | src/main/java/intersections/Rectangle.java:35-46 | the 5-argument constructor once the check passed: the fields are the arguments, contributors null |
| Rectangles.Rectangle.Intersection | src/main/java/intersections/Rectangle.java:50-53 | the 4-argument constructor: id 0, empty contributor list |
| Rectangles.Rectangle.Value | src/main/java/intersections/Rectangle.java:56-78 | the getters: every rectangle's state satisfies the constructor's check |
| Rectangles.Rectangle.SetContributors | src/main/java/intersections/Rectangle.java:81-83 | the list becomes the argument, nothing else changes |
| Rectangles.Rectangle.IsIntersectionUnique | src/main/java/intersections/Rectangle.java:95-106 | false exactly when the bounds are equal and the other rectangle lists no id this one lacks; the list of this rectangle is sorted exactly when the ids were compared |
| Rectangles.IntersectionUnique | src/main/java/intersections/Rectangle.java:95-106 | the duplicate test on values: unique unless the bounds are equal and the candidate lists no id the stored rectangle lacks |
| Rectangles.HasNewContributor | src/main/java/intersections/Rectangle.java:155-164 | `areContributorsUnique` on values: some id of the other list is missing from this one |
| Rectangles.NotUniqueIff | src/main/java/intersections/Rectangle.java:95-106 | a candidate is rejected if and only if it has equal bounds and each of its ids is already listed |
| Rectangles.EmptyListNeverUnique | src/main/java/intersections/Rectangle.java:155-164 | with equal bounds, an empty candidate list is never unique, while the reverse comparison is unique whenever the stored list is non-empty |
| Rectangles.Rectangle.AreContributorsUnique | src/main/java/intersections/Rectangle.java:155-164 | true exactly when the other list has an id missing from this list; this list is left sorted once an id was looked up, unchanged otherwise |
| Rectangles.Rectangle.IsContributorUnique | src/main/java/intersections/Rectangle.java:176-183 | true exactly when the id is absent; the list becomes its sorted rearrangement |
| Rectangles.Rectangle.AddUniqueContributors | src/main/java/intersections/Rectangle.java:115-130 | the new list is `MergeContributors` of the old list and the argument |
| Rectangles.Rectangle.AppendNewIds | src/main/java/intersections/Rectangle.java:117-127 | the loop appends each id not yet present, including ids appended earlier in the same call |
| Rectangles.Rectangle.AddIfNew | src/main/java/intersections/Rectangle.java:120-126 | the loop body adds the id exactly when it is absent, an empty list included |
| Rectangles.MergeContributors | src/main/java/intersections/Rectangle.java:115-130 | the list after `addUniqueContributors`: each id of the argument appended unless present, then sorted; a null argument only sorts |
| Rectangles.MergeContents | src/main/java/intersections/Rectangle.java:115-130 | the merged list is sorted, and its ids are exactly the old ids and those of the argument; a null argument only sorts |
| Rectangles.MergeCounts | src/main/java/intersections/Rectangle.java:115-130 | no id already present is added again, and each new id is added once |
| Rectangles.MergeKeepsNoDuplicates | src/main/java/intersections/Rectangle.java:115-130 | a list without repeats stays without repeats |
| Rectangles.Rectangle.AddInitialContributors | src/main/java/intersections/Rectangle.java:141-144 | appends id1 and then id2, without sorting or removing repeats |
| Sorting.SortSeq | src/main/java/intersections/Rectangle.java:129 | `Collections.sort` gives an ascending list of the same length |
| Sorting.SortSeqPermutes | src/main/java/intersections/Rectangle.java:129 | sorting keeps every element with its multiplicity |
| Sorting.SortedUnique | src/main/java/intersections/Rectangle.java:129 | a sorted list is determined by its elements, so the sort result does not depend on the input order |
| Sorting.SortSeqIdempotent | src/main/java/intersections/Rectangle.java:177 | sorting a sorted list again changes nothing, as the repeated sorts of `isContributorUnique` do |
| Sorting.BinarySearch | src/main/java/intersections/Rectangle.java:178 | a non-negative result is a position of the key; a negative one is `-(insertion point) - 1` and the key is absent |
| Reporter.IntersectionReporter.Create | src/main/java/intersections/IntersectionReporter.java:37-51 | a null list gives `NullList`, a null element `NullRectangle`; otherwise a reporter over those rectangles with an empty list and counter 0 |
| Reporter.IntersectionReporter.constructor | src/main/java/intersections/IntersectionReporter.java:48-50 | stores the list, empty result list, counter 0 |
| Geometry.OverlapPresent | src/main/java/intersections/IntersectionReporter.java:206-231 | `overlapPresent` on values: false exactly when one box lies strictly left of, right of, above or below the other |
| Geometry.OverlapIffCommonPoint | src/main/java/intersections/IntersectionReporter.java:206-231 | `overlapPresent` holds if and only if the two closed regions share a point, so shared edges count |
| Geometry.OverlapSymmetric | src/main/java/intersections/IntersectionReporter.java:206-231 | the overlap test does not depend on the order of its arguments |
| Geometry.FindIntersection | src/main/java/intersections/IntersectionReporter.java:155-192 | fails only with `NegativeOverlap`; a result is well formed with id 0 and lists `[id1, id2]` when both arguments have null lists, nothing otherwise |
| Geometry.IntersectionCells | src/main/java/intersections/IntersectionReporter.java:173-186 | a result covers exactly the unit cells both arguments cover |
| Geometry.IntersectionInside | src/main/java/intersections/IntersectionReporter.java:173-186 | a result lies inside both arguments |
| Geometry.IntersectionFailsIffNoCommonCell | src/main/java/intersections/IntersectionReporter.java:178-183 | the computation fails if and only if the arguments share no unit cell |
| Geometry.IntersectionImpliesOverlap | src/main/java/intersections/IntersectionReporter.java:182-186 | every positive-area intersection passes the overlap test |
| Geometry.EdgeTouchingOverlapsButFails | src/main/java/intersections/IntersectionReporter.java:182-183 | boxes sharing only an edge pass the overlap test, and their intersection throws |
| Reporter.IntersectionReporter.FindIntersection | src/main/java/intersections/IntersectionReporter.java:155-192 | the object version: fails exactly when `Geometry.FindIntersection` does; otherwise a fresh rectangle with its value |
| Reporter.IntersectionReporter.IsUnique | src/main/java/intersections/IntersectionReporter.java:313-319 | true exactly when every stored rectangle finds the candidate unique; the stored values do not change |
| Engine.AllUnique | src/main/java/intersections/IntersectionReporter.java:313-319 | `isUnique` on values: every stored rectangle finds the candidate unique |
| Engine.NoIntersections | src/main/java/intersections/IntersectionReporter.java:243-260 | `noIntersections(k)` on values: no two stored rectangles at positions k <= i < j overlap |
| Engine.Absorb | src/main/java/intersections/IntersectionReporter.java:291-292 | the candidate keeps its bounds and id, its list is sorted, and its ids are its own and those of both parents |
| Engine.Step | src/main/java/intersections/IntersectionReporter.java:283-297 | the pair step only appends, at most one rectangle, and keeps every stored list sorted |
| Engine.StepCases | src/main/java/intersections/IntersectionReporter.java:286-295 | a step stores nothing, or exactly the merged intersection of the pair |
| Engine.Cols | src/main/java/intersections/IntersectionReporter.java:282-298 | the inner loop only appends |
| Engine.Rows | src/main/java/intersections/IntersectionReporter.java:276-299 | the outer loop only appends |
| Engine.Round | src/main/java/intersections/IntersectionReporter.java:272-300 | a round only appends, and keeps every stored list sorted |
| Engine.RowsKeeps | src/main/java/intersections/IntersectionReporter.java:272-300 | a round keeps every stored rectangle within the input edges, and sound when its list is |
| Engine.CandidateSound | src/main/java/intersections/IntersectionReporter.java:286-292 | a merged candidate lies inside every input it names |
| Engine.RowsFresh | src/main/java/intersections/IntersectionReporter.java:286-292 | in a round over stored intersections no appended rectangle repeats stored bounds, because its list is still empty when it is checked |
| Engine.RoundProgress | src/main/java/intersections/IntersectionReporter.java:85-92 | a later round either stores nothing and then finds no overlap from its start on, or stores bounds not stored before |
| Engine.Continue | src/main/java/intersections/IntersectionReporter.java:79-94 | the recursion terminates and only appends to the stored list |
| Engine.ContinueStep | src/main/java/intersections/IntersectionReporter.java:85-92 | one level of the recursion is a round from the newest stored rectangle, then the recursion on its result |
| Engine.ContinueStop | src/main/java/intersections/IntersectionReporter.java:81-82 | with no overlap left the recursion returns the stored list |
| Engine.ContinueFails | src/main/java/intersections/IntersectionReporter.java:88 | a round that throws makes the recursion fail with the same error |
| Engine.FirstRound | src/main/java/intersections/IntersectionReporter.java:61-62 | round 1 keeps the stored rectangles within the input edges, sound for initial inputs, and non-empty when there is an overlap |
| Engine.Search | src/main/java/intersections/IntersectionReporter.java:59-68 | `getIntersections()` on a given stored list only appends to it |
| Engine.GetIntersections | src/main/java/intersections/IntersectionReporter.java:59-68 | the result of a new reporter's search is a list of intersection rectangles with sorted lists |
| Engine.WithinRound | src/main/java/intersections/IntersectionReporter.java:85-92 | one level of the recursion: its round keeps the stored rectangles within the input edges, makes progress towards termination, and leaves the rest of the recursion with the same result |
| Engine.SoundRound | src/main/java/intersections/IntersectionReporter.java:85-92 | the same level also keeps every stored rectangle sound |
| Engine.ContinueWithin | src/main/java/intersections/IntersectionReporter.java:79-94 | the result of the recursion stays within the input edges |
| Engine.SearchWithin | src/main/java/intersections/IntersectionReporter.java:59-68 | so does the result of the whole search, which is what a second search on the same reporter needs |
| Engine.ContinueSound | src/main/java/intersections/IntersectionReporter.java:79-94 | the recursion keeps every stored rectangle sound: each id it lists belongs to an input, and it lies inside each input it names |
| Engine.SearchSound | src/main/java/intersections/IntersectionReporter.java:59-68 | so does the whole search, starting from a sound list |
| Engine.GetIntersectionsSound | src/main/java/intersections/IntersectionReporter.java:59-68 | for initial inputs, every id a reported rectangle lists is the id of an input, and every input whose id it lists contains the rectangle |
| Engine.StepReports | src/main/java/intersections/IntersectionReporter.java:286-295 | after its step a pair with positive-area intersection is stored, or already was with all its ids |
| Engine.RowsReports | src/main/java/intersections/IntersectionReporter.java:276-299 | after a round every compared pair is reported |
| Engine.GetIntersectionsReportsPairs | src/main/java/intersections/IntersectionReporter.java:276-282 | every pair (i, j) of inputs with `inputs[i].id <= j` whose intersection has positive area is reported |
| Engine.ReportedWithBothIds | src/main/java/intersections/IntersectionReporter.java:187-188 | a reported pair of initial rectangles is reported with both ids |
| Engine.NumberedInputsReportAllPairs | src/main/java/intersections/IntersectionReporter.java:276-282 | with ids 1..n, every pair i < j with positive-area intersection is reported by a rectangle of exactly those bounds listing both ids |
| Reporter.IntersectionReporter.ComparePair | src/main/java/intersections/IntersectionReporter.java:283-297 | the object version of `Engine.Step`: same outcome, same new list of values, earlier rectangles unchanged |
| Reporter.IntersectionReporter.Admit | src/main/java/intersections/IntersectionReporter.java:290-295 | the candidate is appended, with both parents' ids merged in, exactly when every stored rectangle admits it |
| Reporter.IntersectionReporter.Record | src/main/java/intersections/IntersectionReporter.java:291-294 | merges both parents' ids, appends the candidate and increments the counter |
| Reporter.IntersectionReporter.MergeInto | src/main/java/intersections/IntersectionReporter.java:291-292 | the two `addUniqueContributors` calls give `Engine.Absorb` of the candidate |
| Reporter.IntersectionReporter.CompareRow | src/main/java/intersections/IntersectionReporter.java:282-298 | the inner loop computes `Engine.Cols` from `rectangle1.getId()` to the snapshot `endPoint` |
| Reporter.IntersectionReporter.GenerateIntersections | src/main/java/intersections/IntersectionReporter.java:272-300 | computes `Engine.Round` over the list's values on entry, and keeps the counter equal to the list size |
| Reporter.IntersectionReporter.NoIntersections | src/main/java/intersections/IntersectionReporter.java:243-260 | true exactly when no pair k <= i < j of stored rectangles overlaps; nothing changes |
| Reporter.IntersectionReporter.NextRound | src/main/java/intersections/IntersectionReporter.java:87-91 | one round from the given index and the stopping check: the state `Engine.Round` gives, and progress towards termination; new rectangles are new objects |
| Reporter.IntersectionReporter.Advance | src/main/java/intersections/IntersectionReporter.java:85-93 | a round, then the recursion: the outcome and list `Engine.Continue` gives; the list only grows, by new objects |
| Reporter.IntersectionReporter.GetIntersectionsFrom | src/main/java/intersections/IntersectionReporter.java:79-94 | the recursive `getIntersections` computes `Engine.Continue` from the current list; the list only grows, by new objects, and the inputs keep their values |
| Reporter.IntersectionReporter.GetIntersections | src/main/java/intersections/IntersectionReporter.java:59-68 | returns the stored list exactly when `Engine.Search` succeeds, with that list as its values; otherwise the same error. The stored list only grows, by new objects, the inputs keep their values, and after success the stored rectangles stay within the input edges |
| Reporter.IntersectionReporter.RunSearch | src/main/java/intersections/IntersectionReporter.java:59-68 | the same search with the exception as an optional error: the outcome `Engine.Search` gives |
| Reporter.IntersectionReporter.StartSearch | src/main/java/intersections/IntersectionReporter.java:61-62 | round 1 over the inputs and the stopping check: the state `Engine.Round` gives, or the error that ends the whole search |
| Reporter.IntersectionReporter.FinishSearch | src/main/java/intersections/IntersectionReporter.java:65 | the recursion after round 1: together with that round, the outcome `Engine.Search` gives |
| Examples.ThreeRounds | src/main/java/intersections/IntersectionReporter.java:59-94 | a search that grows in rounds 1 and 2 and adds nothing in round 3 returns the list of round 2 |
| Examples.FourRectangles | src/test/java/intersections/IntersectionReporterTest.java:50-96 | the four test inputs, with ids 1..4, give exactly the seven expected rectangles in order, bounds and contributors |
| UnitExamples.ConstructorChecks | src/test/java/intersections/RectangleTest.java:16-56 | each negative or zero parameter set is refused |
| UnitExamples.UniqueByBounds | src/test/java/intersections/RectangleTest.java:60-95 | different bounds are unique; equal bounds with empty lists are not |
| UnitExamples.UniqueByContributors | src/test/java/intersections/RectangleTest.java:69-113 | {1,2} against {1,3} is unique, {1,2} against {1,2} is not |
| UnitExamples.AdditionToEmptyList | src/test/java/intersections/RectangleTest.java:127-145 | merging [1, 2] into an empty list gives [1, 2] |
| UnitExamples.AdditionToOccupiedList | src/test/java/intersections/RectangleTest.java:147-171 | merging [3, 4] into [1, 2] gives [1, 2, 3, 4] |
| UnitExamples.UniqueContributorsAdded | src/test/java/intersections/RectangleTest.java:147-171 | the same on a rectangle object |
| UnitExamples.InitialContributorsAdded | src/test/java/intersections/RectangleTest.java:175-186 | `addInitialContributors(1, 2)` gives [1, 2] |
| UnitExamples.OverlapDirections | src/test/java/intersections/IntersectionReporterTest.java:160-267 | the four touching pairs overlap, the four separated pairs do not |
| UnitExamples.IntersectionCases | src/test/java/intersections/IntersectionReporterTest.java:103-151 | the expected intersection of the normal case, and the error for the separated pair |
| UnitExamples.SharedEdgeStopsTheSearch | src/main/java/intersections/IntersectionReporter.java:182-183 | two squares sharing an edge make the whole search fail |
| UnitExamples.SearchTwice | src/main/java/intersections/IntersectionReporter.java:59-68 | a reporter may run `getIntersections()` twice; the second run keeps what the first stored |
| UnitExamples.PlainInputsPairWithThemselves | src/main/java/intersections/IntersectionReporter.java:279-282 | inputs with id 0, as the four-rectangle test builds them, first pair input 0 with itself |

## Left out

- `src/main/java/intersections/App.java` is not part of this model. It covers command-line arguments, file and JSON reading, schema validation and `System.exit`.
- `printInputs` and `printIntersections` are console formatting and are not modelled.
- The null checks of `findIntersection` and `overlapPresent` are not modelled: the model's references are never null, and no caller in the core passes null.
- Java's 32-bit `int` is not modelled. Sums such as `x + deltaX` are unbounded integers, so inputs near `Integer.MAX_VALUE`, which wrap in the source, are not covered.
- Reference aliasing of contributor lists is not modelled. `getContributors` hands out the internal list and `setContributors` keeps the caller's list. Here a list is an owned sequence value.
- `generateIntersections` receives `allIntersections` itself in later rounds and appends to the list it iterates. The model passes the list as a sequence value. This is the same because the loop bound `endPoint` is taken on entry and only positions below it are read.
- `Collections.sort` and `Collections.binarySearch` are library code. The sort is modelled by the specification function `SortSeq`. `BinarySearch` follows the library algorithm without its unsigned shift, which only matters for lists of size near 2^31.
- Reporter.IntersectionReporter.GetIntersections: after a search that fails, the contract does not promise that the stored rectangles stay within the input edges, so a second search is only allowed after a successful one.
- The test classes are not modelled as code. Their cases appear as the lemmas of `examples_unit.dfy` and `examples_oracle.dfy`. The four-rectangle test methods lack `@Test` and build inputs with id 0. `Examples.FourRectangles` uses the ids 1..4 the application assigns. `UnitExamples.PlainInputsPairWithThemselves` shows what id 0 changes at the start of round 1.
- `AppTest` reads local files and is not modelled.
