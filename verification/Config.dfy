/** Compile-time limits of the host and the small shared vocabulary. */
module Config {
  const MAX_CHANNELS: nat := 2
  const MAX_TRACKS: nat := 16
  const MAX_EFFECTS_PER_TRACK: nat := 8
  const MAX_NODES: nat := MAX_TRACKS * (1 + MAX_EFFECTS_PER_TRACK)
  const MAX_EVENTS_PER_BLOCK: nat := 256

  const TWO_32: nat := 0x1_0000_0000
  const UINT32_MAX: nat := 0xFFFF_FFFF

  /** The slot number that addresses a track's instrument. */
  const MR_DEST_INSTRUMENT: int := -1

  /** A 32-bit float, kept as its bit pattern: no property here depends on rounding. */
  type Float = x: nat | x < 0x1_0000_0000
  const FLOAT_ZERO: Float := 0
  const FLOAT_ONE: Float := 0x3F80_0000

  type Byte = x: int | 0 <= x < 0x100
  type Word = x: int | 0 <= x < 0x1_0000_0000

  datatype Option<+T> = None | Some(value: T)

  function Count<T>(o: Option<T>): nat {
    if o.Some? then 1 else 0
  }

  function Min(a: nat, b: nat): nat {
    if a < b then a else b
  }

  ghost predicate NoDup<T(!new)>(s: seq<T>) {
    forall i, j :: 0 <= i < j < |s| ==> s[i] != s[j]
  }
}
