/** Small shared types: optional values and the integer width the sources use. */
module Common {

  datatype Option<+T> = None | Some(value: T)

  /** Go's uint64 as an integer range; wrap-around is written out where it matters. */
  const TWO_64: int := 0x1_0000_0000_0000_0000
  type uint64 = n: int | 0 <= n < TWO_64
}
