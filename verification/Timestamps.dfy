/** How an `i128` nanosecond time becomes a kernel (seconds, nanoseconds) pair, and back. */
module Timestamps {
  import opened Paths

  const NANOS: int := 1_000_000_000
  const I64_MIN: int := -0x8000_0000_0000_0000
  const I64_MAX: int := 0x7fff_ffff_ffff_ffff
  const U64_MAX: int := 0xffff_ffff_ffff_ffff

  datatype Timespec = Timespec(seconds: int, nanos: int)

  /** The times both writers accept: whole seconds, rounded down, fit an i64. */
  predicate TimeFits(ns: int) {
    I64_MIN <= ns / NANOS <= I64_MAX
  }

  /** `set_file_metadata`: the sign and magnitude go through a Duration around the Unix epoch. */
  function SignedSplit(ns: int): Option<Timespec> {
    var magnitude := if ns < 0 then -ns else ns;
    var seconds := magnitude / NANOS;
    var nanos := magnitude % NANOS;
    if seconds > U64_MAX then None
    else if ns < 0 then EpochMinus(seconds, nanos)
    else EpochPlus(seconds, nanos)
  }

  /** `SystemTime::checked_add` from the epoch. */
  function EpochPlus(seconds: int, nanos: int): Option<Timespec> {
    if seconds > I64_MAX then None else Some(Timespec(seconds, nanos))
  }

  /** `SystemTime::checked_sub` from the epoch: borrow a second for a negative nanosecond part. */
  function EpochMinus(seconds: int, nanos: int): Option<Timespec> {
    if -seconds < I64_MIN then None
    else if nanos == 0 then Some(Timespec(-seconds, 0))
    else if -seconds - 1 < I64_MIN then None
    else Some(Timespec(-seconds - 1, NANOS - nanos))
  }

  /** `Committer::symlink`: Euclidean division straight into a Timespec. */
  function EuclideanSplit(ns: int): Option<Timespec> {
    if I64_MIN <= ns / NANOS <= I64_MAX then Some(Timespec(ns / NANOS, ns % NANOS)) else None
  }

  /** `metadata::mtime_ns`: what a rescan reports for a stored time. */
  function Rescan(t: Timespec): int {
    t.seconds * NANOS + t.nanos
  }

  /**
   * Both writers accept exactly the same times, store the same pair, and a rescan recovers the
   * nanosecond value that was asked for.
   */
  lemma SplitsAgree(ns: int)
    ensures SignedSplit(ns) == EuclideanSplit(ns)
    ensures SignedSplit(ns).Some? <==> TimeFits(ns)
    ensures TimeFits(ns) <==>
              -0x8000_0000_0000_0000 * 1_000_000_000 <= ns < 0x8000_0000_0000_0000 * 1_000_000_000
    ensures SignedSplit(ns).Some? ==>
              var t := SignedSplit(ns).value;
              && 0 <= t.nanos < 1_000_000_000 && ns == t.seconds * 1_000_000_000 + t.nanos
              && Rescan(t) == ns
  {
  }
}
