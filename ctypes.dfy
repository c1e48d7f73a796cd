/** The ranges of the fixed-width unsigned C integer types the firmware's
    counters and statics use; a value of such a type is kept below its
    range, and arithmetic on it wraps modulo the range. */
module CTypes {
  /** Range of `uint32_t`. */
  const Uint32Range: nat := 0x1_0000_0000
  /** Range of `uint16_t`. */
  const Uint16Range: nat := 0x1_0000
  /** Range of `uint8_t`. */
  const Uint8Range: nat := 0x100
}
