/** The widths of the counters the console keeps. */
module Limits {
  const U32_MAX: nat := 0xffff_ffff
  const U64_MAX: nat := 0xffff_ffff_ffff_ffff
}
