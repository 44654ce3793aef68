/** Small value types shared by every module of the model. */
module Values {

  /** Python's `Optional[...]`: a value or `None`. */
  datatype Option<+T> = None | Some(value: T)

  /** One octet of an HTTP body or of a file. */
  newtype byte = x: int | 0 <= x < 256
}
