/** What several parts of the system share: constants of param.h, machine words and bytes, and
    optional results. */
module Params {

  const MAXOPBLOCKS: nat := 10   // blocks any one operation may log
  const LOGSIZE: nat := 30       // data blocks in the on-disk log
  const NBUF: nat := 30          // buffers in the cache

  const WORD: nat := 0x1_0000_0000   // unsigned integers wrap here
  type Byte = x: int | 0 <= x < 256

  datatype Option<T> = None | Some(value: T)
}
