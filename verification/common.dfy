/** Small shared vocabulary: optional values and grid points. */
module Common {

  /** A value that may be absent (a Java reference that may be null). */
  datatype Option<+T> = None | Some(value: T)

  /** An integer grid coordinate of the landscape map. */
  datatype Point = Point(x: int, y: int)
}
