/*
 * Constants, the glyph table and the record types declared by the CHIP-8
 * header (src/chip8.h).  The mutable machine record itself is the class
 * `Cpu.Chip8`; its value-level image is `Semantics.Machine`.
 */
module Chip8Defs {

  /** `uint8_t` */
  type u8 = x: int | 0 <= x < 0x100
  /** `uint16_t` */
  type u16 = x: int | 0 <= x < 0x1_0000
  /** A 4-bit field of an opcode (held in a `uint8_t` by the source, but never wider than its mask). */
  type u4 = x: int | 0 <= x < 0x10

  const RAM_SIZE: nat := 4096
  const STACK_SIZE: nat := 16
  const FONT_SET_SIZE: nat := 80
  /** Width of one instruction in bytes. */
  const OP_SIZE: nat := 2

  const NUM_REGISTERS: nat := 16
  /** VF, the flag register. */
  const VF_IDX: nat := 15

  const PROGRAM_START: nat := 0x200

  const SCREEN_WIDTH: nat := 64
  const SCREEN_HEIGHT: nat := 32
  /** The screen is one byte per pixel, row-major. */
  const SCREEN_SIZE: nat := SCREEN_HEIGHT * SCREEN_WIDTH

  const NUM_KEYS: nat := 16

  /** Bytes per hexadecimal digit glyph. */
  const GLYPH_HEIGHT: nat := 5

  /** The 4x5 glyph of hexadecimal digit `d`: five rows, top row first, one pixel per bit from the left. */
  function Glyph(d: nat): (rows: seq<u8>)
    requires d < 16
    ensures |rows| == GLYPH_HEIGHT
  {
    match d
    case 0 => [0xF0, 0x90, 0x90, 0x90, 0xF0]
    case 1 => [0x20, 0x60, 0x20, 0x20, 0x70]
    case 2 => [0xF0, 0x10, 0xF0, 0x80, 0xF0]
    case 3 => [0xF0, 0x10, 0xF0, 0x10, 0xF0]
    case 4 => [0x90, 0x90, 0xF0, 0x10, 0x10]
    case 5 => [0xF0, 0x80, 0xF0, 0x10, 0xF0]
    case 6 => [0xF0, 0x80, 0xF0, 0x90, 0xF0]
    case 7 => [0xF0, 0x10, 0x20, 0x40, 0x40]
    case 8 => [0xF0, 0x90, 0xF0, 0x90, 0xF0]
    case 9 => [0xF0, 0x90, 0xF0, 0x10, 0xF0]
    case 10 => [0xF0, 0x90, 0xF0, 0x90, 0x90]
    case 11 => [0xE0, 0x90, 0xE0, 0x90, 0xE0]
    case 12 => [0xF0, 0x80, 0x80, 0x80, 0xF0]
    case 13 => [0xE0, 0x90, 0x90, 0x90, 0xE0]
    case 14 => [0xF0, 0x80, 0xF0, 0x80, 0xF0]
    case _ => [0xF0, 0x80, 0xF0, 0x80, 0x80]  // F
  }

  /** The glyph table: the glyphs of 0..F one after the other. */
  const FONT_SET: seq<u8> := GlyphTable()

  function GlyphTable(): (table: seq<u8>)
    ensures |table| == FONT_SET_SIZE
  {
    seq(FONT_SET_SIZE, i requires 0 <= i < FONT_SET_SIZE => Glyph(i / GLYPH_HEIGHT)[i % GLYPH_HEIGHT])
  }

  /**
   * The decoded fields of one instruction word:
   *
   *   |<--------------|<-----kk------>|
   *   |<--op->|<---------addr-------->|
   *   |<--op->|<--x-->|<--y-->|<--n-->|
   */
  datatype Opcode = Opcode(op: u4, addr: u16, x: u4, y: u4, n: u4, kk: u8, fullOp: u16)

  /** Address of the glyph of hexadecimal digit `d` in the font region. */
  function GlyphAddress(d: nat): (a: nat)
    requires d < 16
    ensures a + GLYPH_HEIGHT <= FONT_SET_SIZE == |FONT_SET|
  {
    d * GLYPH_HEIGHT
  }

  /** Every row of the glyph of digit `d` leaves its low nibble clear. */
  lemma GlyphRowsNarrow(d: nat)
    requires d < 16
    ensures forall j | 0 <= j < GLYPH_HEIGHT :: Glyph(d)[j] % 16 == 0
  {
    match d
    case 0 => case 1 => case 2 => case 3 => case 4 => case 5 => case 6 => case 7 =>
    case 8 => case 9 => case 10 => case 11 => case 12 => case 13 => case 14 => case _ =>
  }

  /**
   * The glyph table is 16 digits of 5 rows, the glyph of `d` at
   * `GlyphAddress(d)`, and every row is at most 4 pixels wide.
   */
  lemma {:induction false} FontSetShape()
    ensures |FONT_SET| == 16 * GLYPH_HEIGHT == FONT_SET_SIZE
    ensures forall d | 0 <= d < 16 :: FONT_SET[GlyphAddress(d)..GlyphAddress(d) + GLYPH_HEIGHT] == Glyph(d)
    ensures forall i | 0 <= i < |FONT_SET| :: FONT_SET[i] % 16 == 0
  {
    forall d | 0 <= d < 16
      ensures FONT_SET[GlyphAddress(d)..GlyphAddress(d) + GLYPH_HEIGHT] == Glyph(d)
    {
      forall j | 0 <= j < GLYPH_HEIGHT
        ensures FONT_SET[d * GLYPH_HEIGHT + j] == Glyph(d)[j]
      {
        assert (d * GLYPH_HEIGHT + j) / GLYPH_HEIGHT == d;
      }
    }
    forall i | 0 <= i < |FONT_SET|
      ensures FONT_SET[i] % 16 == 0
    {
      GlyphRowsNarrow(i / GLYPH_HEIGHT);
    }
  }
}
