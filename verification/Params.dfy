/** Sizes fixed by kernel/param.h and kernel/riscv.h. */
module Params {
  const MAXOPBLOCKS: nat := 10     // blocks one file-system operation may log
  const LOGSIZE: nat := 30         // blocks in the log
  const PGSIZE: nat := 4096        // bytes in a page
}
