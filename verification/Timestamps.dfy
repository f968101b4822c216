/** Timestamps as ffmpeg stores them. */
module Timestamps {
  /** The unset timestamp is the least 64-bit integer, and takes part in comparisons as such. */
  const AV_NOPTS_VALUE: int := -0x8000_0000_0000_0000
  const INT64_MAX: int := 0x7FFF_FFFF_FFFF_FFFF

  /** Microseconds in a second. */
  const AV_TIME_BASE: int := 1000000

  predicate Set(t: int) { t != AV_NOPTS_VALUE }
}
