/** Types that several modules share. */
module Common {
  type Byte = bv8

  datatype Option<+T> = None | Some(value: T)
}
