/**
 * Fixed-width machine words used by the renderer: unsigned 32-bit counters
 * (`unsigned int`), signed 32-bit fields of the bitmap header (`int32_t`),
 * and bytes, together with their little-endian encodings.
 */
module Words {

  const U32_LIMIT: int := 0x1_0000_0000
  const U16_LIMIT: int := 0x1_0000
  const I32_MIN: int := -0x8000_0000
  const I32_MAX: int := 0x7FFF_FFFF

  type Byte = x: int | 0 <= x < 256
  type U16 = x: int | 0 <= x < U16_LIMIT
  type U32 = x: int | 0 <= x < U32_LIMIT
  type I32 = x: int | I32_MIN <= x <= I32_MAX

  /** The C++ conversion of an `int` to `unsigned int`: reduction modulo 2^32. */
  function ToU32(x: int): (r: U32)
    ensures 0 <= x < U32_LIMIT ==> r == x
    ensures x < 0 && x >= -U32_LIMIT ==> r == x + U32_LIMIT
    ensures x >= 0 ==> r <= x
    ensures (r - x) % U32_LIMIT == 0
  {
    x % U32_LIMIT
  }

  /** `x + 1` on an `unsigned int`: wraps from 2^32-1 to 0. */
  function IncU32(x: U32): (r: U32)
    ensures x < U32_LIMIT - 1 ==> r == x + 1
    ensures x == U32_LIMIT - 1 ==> r == 0
  {
    if x == U32_LIMIT - 1 then 0 else x + 1
  }

  function LE16(v: U16): (r: seq<Byte>)
    ensures |r| == 2 && DecodeLE16(r) == v
  {
    [v % 256, v / 256]
  }

  function DecodeLE16(b: seq<Byte>): int
    requires |b| == 2
  {
    b[0] as int + 256 * (b[1] as int)
  }

  function LE32(v: U32): (r: seq<Byte>)
    ensures |r| == 4 && DecodeLE32(r) == v
  {
    var q1 := v / 256;
    var q2 := q1 / 256;
    var q3 := q2 / 256;
    assert v == v % 256 + 256 * q1 && q1 == q1 % 256 + 256 * q2 && q2 == q2 % 256 + 256 * q3;
    [v % 256, q1 % 256, q2 % 256, q3]
  }

  function DecodeLE32(b: seq<Byte>): int
    requires |b| == 4
  {
    b[0] as int + 256 * (b[1] as int) + 0x1_0000 * (b[2] as int) + 0x100_0000 * (b[3] as int)
  }

  /** An `int32_t` as stored on a little-endian machine: two's complement. */
  function LEI32(v: I32): (r: seq<Byte>)
    ensures |r| == 4 && DecodeLEI32(r) == v
  {
    LE32(if v < 0 then v + U32_LIMIT else v)
  }

  function DecodeLEI32(b: seq<Byte>): int
    requires |b| == 4
  {
    var u := DecodeLE32(b);
    if u > I32_MAX then u - U32_LIMIT else u
  }
}
