// Bytes, their sequences, and the little-endian integers every payload of the link is made of.
module Bytes {
  type byte = x: int | 0 <= x < 256
  type u16 = x: int | 0 <= x < 0x1_0000
  type u32 = x: int | 0 <= x < 0x1_0000_0000

  function Min(a: nat, b: nat): nat {
    if a < b then a else b
  }

  function Concat(parts: seq<seq<byte>>): seq<byte> {
    if parts == [] then [] else parts[0] + Concat(parts[1..])
  }

  /** write_u16_: low byte first. */
  function U16(value: u16): seq<byte> {
    [value % 256, value / 256]
  }

  /** write_u32_: low byte first. */
  function U32(value: u32): seq<byte> {
    [value % 256, value / 256 % 256, value / 0x1_0000 % 256, value / 0x100_0000]
  }

  /** read_u16, at an offset into a payload. */
  function ReadU16(data: seq<byte>, at: nat): u16
    requires at + 2 <= |data|
  {
    var low: int, high: int := data[at], data[at + 1];
    low + 256 * high
  }

  /** read_u32, at an offset into a payload. */
  function ReadU32(data: seq<byte>, at: nat): u32
    requires at + 4 <= |data|
  {
    var b0: int, b1: int, b2: int, b3: int := data[at], data[at + 1], data[at + 2], data[at + 3];
    b0 + 0x100 * b1 + 0x1_0000 * b2 + 0x100_0000 * b3
  }

  lemma ReadWriteU16(data: seq<byte>, at: nat, value: u16)
    requires at + 2 <= |data| && data[at..at + 2] == U16(value)
    ensures ReadU16(data, at) == value
  {
    assert data[at] == data[at..at + 2][0] && data[at + 1] == data[at..at + 2][1];
  }

  lemma WriteReadU16(data: seq<byte>, at: nat)
    requires at + 2 <= |data|
    ensures U16(ReadU16(data, at)) == data[at..at + 2]
  {
  }

  lemma ReadWriteU32(data: seq<byte>, at: nat, value: u32)
    requires at + 4 <= |data| && data[at..at + 4] == U32(value)
    ensures ReadU32(data, at) == value
  {
    var w := data[at..at + 4];
    assert data[at] == w[0] && data[at + 1] == w[1] && data[at + 2] == w[2] && data[at + 3] == w[3];
    var q := value / 0x1_0000;
    assert value % 0x1_0000 == value % 256 + 256 * (value / 256 % 256);
    assert q == q % 256 + 256 * (q / 256) && q / 256 == value / 0x100_0000;
  }
}
