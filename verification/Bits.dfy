/** Machine integers of the Go source, written over the unbounded integers:
    truncation, two's complement and little-endian byte order are explicit. */
module Bits {

  const TWO15 := 0x8000
  const TWO16 := 0x1_0000
  const TWO31 := 0x8000_0000
  const TWO32 := 0x1_0000_0000
  const TWO63 := 0x8000_0000_0000_0000
  const TWO64 := 0x1_0000_0000_0000_0000

  type byte = b: int | 0 <= b < 256
  type uint16 = x: int | 0 <= x < TWO16
  type uint32 = x: int | 0 <= x < TWO32
  type uint64 = x: int | 0 <= x < TWO64
  type int16 = x: int | -TWO15 <= x < TWO15
  type int64 = x: int | -TWO63 <= x < TWO63

  /** uint32(x): also what uint32 addition, subtraction and multiplication reduce to. */
  function Trunc32(x: int): uint32 { x % TWO32 }

  function Trunc16(x: int): uint16 { x % TWO16 }

  /** int32(x) of a uint32. */
  function AsInt32(x: uint32): int { if x < TWO31 then x else x - TWO32 }

  /** int16(x) of a uint16. */
  function AsInt16(x: uint16): int16 { if x < TWO15 then x else x - TWO16 }

  /** The int64 that a mathematical result wraps to. */
  function Wrap64(x: int): int64 {
    var m := x % TWO64;
    if m < TWO63 then m else m - TWO64
  }

  /** Go's integer division, which truncates toward zero. */
  function Quo(a: int, b: int): int
    requires b > 0
  {
    if a >= 0 then a / b else -((-a) / b)
  }

  /** On the ring of 2^32 ticks a signed comparison recovers the true distance
      whenever that distance is within half the ring. */
  lemma RingDistance(a: int, b: int)
    requires -TWO31 <= a - b < TWO31
    ensures AsInt32(Trunc32(Trunc32(a) - Trunc32(b))) == a - b
  {
    assert Trunc32(Trunc32(a) - Trunc32(b)) == Trunc32(a - b) by { TruncSub(a, b); }
  }

  lemma TruncSub(a: int, b: int)
    ensures Trunc32(Trunc32(a) - Trunc32(b)) == Trunc32(a - b)
    ensures Trunc32(a - Trunc32(b)) == Trunc32(a - b)
  {
  }

  lemma Trunc16Add(a: int, b: int)
    ensures Trunc16(Trunc16(a) + b) == Trunc16(a + b)
    ensures 0 <= a < TWO16 ==> Trunc16(a) == a
  {
  }

  lemma TruncAdd(a: int, b: int)
    ensures Trunc32(Trunc32(a) + Trunc32(b)) == Trunc32(a + b)
    ensures Trunc32(Trunc32(a) + b) == Trunc32(a + b)
  {
  }

  // ---- little-endian encoding ----

  function LE16(x: uint16): (b: seq<byte>)
    ensures |b| == 2
  {
    [x % 256, x / 256]
  }

  function LE32(x: uint32): (b: seq<byte>)
    ensures |b| == 4
  {
    [x % 256, x / 256 % 256, x / 65536 % 256, x / 16777216]
  }

  function FromLE16(b: seq<byte>): uint16
    requires |b| >= 2
  {
    b[0] as int + 256 * (b[1] as int)
  }

  function FromLE32(b: seq<byte>): uint32
    requires |b| >= 4
  {
    b[0] as int + 256 * (b[1] as int) + 65536 * (b[2] as int) + 16777216 * (b[3] as int)
  }

  function FromLE64(b: seq<byte>): uint64
    requires |b| >= 8
  {
    FromLE32(b[..4]) + TWO32 * FromLE32(b[4..8])
  }

  lemma LE16Inverse(x: uint16)
    ensures FromLE16(LE16(x)) == x
  {
  }

  lemma LE32Inverse(x: uint32)
    ensures FromLE32(LE32(x)) == x
  {
    assert x / 65536 == x / 256 / 256 && x / 16777216 == x / 65536 / 256;
  }
}
