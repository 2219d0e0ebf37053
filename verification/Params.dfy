/** Kernel configuration constants (kernel/param.h). */
module Params {
  const MAXOPBLOCKS: nat := 10
  const LOGSIZE: nat := MAXOPBLOCKS * 3
  const NBUF: nat := MAXOPBLOCKS * 3
  const ROOTDEV: nat := 1
}
