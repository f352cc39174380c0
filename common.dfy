/** Shared failure-carrying datatypes. Java exceptions of the engine become `Err` values. */
module Common {

  /** An optional value; `None` stands for a Java `null` reference. */
  datatype Option<+T> = None | Some(value: T)

  /** Success or failure of an operation that throws in the source. */
  datatype Result<+T, +E> = Ok(value: T) | Err(error: E)

  /** The exceptions the core can raise. */
  datatype Error =
    | NonPositiveParameter  // Rectangle constructor: a size or coordinate <= 0, or a negative id
    | NegativeOverlap       // findIntersection: the computed width or height is <= 0
    | NullList              // IntersectionReporter constructor: the list itself is null
    | NullRectangle         // IntersectionReporter constructor: an element of the list is null
}
