/** Fixed-width integers of the source as subsets of `int`, byte strings, and `Option`. */
module Types {

  /** The number of values of a uint32. */
  const WORD := 0x1_0000_0000

  type UInt8 = x: int | 0 <= x < 0x100
  type UInt32 = x: int | 0 <= x < 0x1_0000_0000

  type Bytes = seq<UInt8>

  /** A `std::string` whose length survives the cast to int32 that every string is written with. */
  type Text = s: seq<UInt8> | |s| < 0x8000_0000

  datatype Option<+T> = None | Some(value: T)
}
