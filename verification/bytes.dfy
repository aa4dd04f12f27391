/** Byte strings and the big-endian integers of the Standard MIDI File
    container (Standard MIDI Files 1.0, "Chunks"): the 32-bit chunk length
    and the signed 16-bit header words. The source reads and writes these
    with `struct.unpack(">I")`, `struct.unpack(">hhh")` and
    `struct.pack(">ihhh")`; here they are explicit functions. */
module Bytes {

  type Byte = b: int | 0 <= b < 256

  /** Chunk tags. */
  const HeaderTag: seq<Byte> := [0x4D, 0x54, 0x68, 0x64]   // "MThd"
  const TrackTag: seq<Byte> := [0x4D, 0x54, 0x72, 0x6B]    // "MTrk"

  /** Big-endian unsigned 32-bit integer (`">I"`). */
  function U32(s: seq<Byte>): (n: nat)
    requires |s| == 4
    ensures n < 0x1_0000_0000
  {
    var b3: int, b2: int, b1: int, b0: int := s[0], s[1], s[2], s[3];
    ((b3 * 256 + b2) * 256 + b1) * 256 + b0
  }

  /** The four bytes `struct.pack(">i", n)` writes for a non-negative `n`. */
  function U32Bytes(n: nat): (s: seq<Byte>)
    requires n < 0x8000_0000
    ensures |s| == 4 && U32(s) == n
  {
    var b0 := n % 256;
    var n1 := n / 256;
    var b1 := n1 % 256;
    var n2 := n1 / 256;
    var b2 := n2 % 256;
    var b3 := n2 / 256;
    assert n == ((b3 * 256 + b2) * 256 + b1) * 256 + b0;
    [b3, b2, b1, b0]
  }

  /** Big-endian signed 16-bit integer (`">h"`), two's complement. */
  function S16(hi: Byte, lo: Byte): (v: int)
    ensures -0x8000 <= v < 0x8000
    ensures v >= 0 <==> hi < 0x80
  {
    var u := hi as int * 256 + lo;
    if u >= 0x8000 then u - 0x1_0000 else u
  }

  /** The two bytes `struct.pack(">h", v)` writes. */
  function S16Bytes(v: int): (s: seq<Byte>)
    requires -0x8000 <= v < 0x8000
    ensures |s| == 2 && S16(s[0], s[1]) == v
  {
    var u := if v < 0 then v + 0x1_0000 else v;
    [u / 256, u % 256]
  }

  /** A chunk as the encoder writes it: tag, `">i"` length, payload. */
  function Frame(tag: seq<Byte>, data: seq<Byte>): (s: seq<Byte>)
    requires |tag| == 4 && |data| < 0x8000_0000
    ensures |s| == 8 + |data|
    ensures s[..4] == tag && U32(s[4..8]) == |data| && s[8..] == data
  {
    tag + U32Bytes(|data|) + data
  }
}
