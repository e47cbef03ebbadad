/** The size_t counters of the lock-free and the ring queues are kept here as mathematical integers; a
    comparison in the code sees them modulo the range of the type. */
module Counters {

  const SIZE_T_RANGE: int := 0x1_0000_0000_0000_0000

  /** What a `size_t` shows of a mathematical counter. */
  function SizeT(x: int): int { x % SIZE_T_RANGE }
}
