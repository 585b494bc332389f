/** Types that several modules share. */
module Basics {

  datatype Option<T> = None | Some(value: T)

  const WORD_LIMIT: nat := 0x1_0000_0000

  /** An unsigned number of 32 bits. */
  type Word = x: nat | x < 0x1_0000_0000
}
