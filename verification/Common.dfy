/** Types that several parts share. */
module Common {
  datatype Option<T> = None | Some(value: T)

  newtype byte = x: int | 0 <= x < 256
}
