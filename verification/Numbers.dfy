module Numbers {

  /** 2^1024 - 2^970: an integer of at least this magnitude cannot be converted to a double. */
  const FLOAT_LIMIT: int :=
    0xFFFFFFFF_FFFFFC00_00000000_00000000_00000000_00000000_00000000_00000000_00000000_00000000_00000000_00000000_00000000_00000000_00000000_00000000_00000000_00000000_00000000_00000000_00000000_00000000_00000000_00000000_00000000_00000000_00000000_00000000_00000000_00000000_00000000_00000000

  predicate FitsFloat(n: int) { -FLOAT_LIMIT < n < FLOAT_LIMIT }
}
