/** The kernel's fixed sizes (inc/fs.h) and its 64-bit words. */
module Limits {
  const MAXOPBLOCKS := 10
  const NBUF := 3 * MAXOPBLOCKS
  const LOGSIZE := 3 * MAXOPBLOCKS

  const TWO64 := 0x1_0000_0000_0000_0000

  type u64 = x: int | 0 <= x < TWO64
}
