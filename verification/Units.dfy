/** The unit constants of the collectors (crates/linux-metrics/src/lib.rs). */
module Units {
  import opened Integers

  const BYTES_PER_KB: u64 := 1024

  /** Kernel clock ticks in a second. */
  const USER_HZ: real := 100.0
}
