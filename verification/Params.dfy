/** Sizes fixed by kernel/param.h. */
module Params {
  const NPROC: nat := 64
  const ROOTDEV: nat := 1
  const MAXOPBLOCKS: nat := 10
  const LOGSIZE: nat := MAXOPBLOCKS * 3
  const NBUF: nat := MAXOPBLOCKS * 3
}
