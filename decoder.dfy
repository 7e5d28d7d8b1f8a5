/*
 * Instruction decoding (`fetch`, src/chip8.c:71-95): two big-endian bytes
 * are split into the fields of `Chip8Defs.Opcode`.
 */
module Decoder {
  import opened Chip8Defs

  /**
   * Decodes the word `hi << 8 | lo`.  The source masks and shifts the whole
   * word (`(w & 0xf000) >> 12`, `(w & 0x0f00) >> 8`, ...); each of those
   * fields lies within one of the two bytes, so it is taken from that byte.
   */
  function Decode(hi: u8, lo: u8): (op: Opcode)
    ensures op.fullOp == hi * 0x100 + lo
    ensures op.op * 0x1000 + op.addr == op.fullOp
    ensures op.x * 0x100 + op.y * 0x10 + op.n == op.addr
    ensures op.y * 0x10 + op.n == op.kk
  {
    Opcode(op := hi / 0x10, addr := (hi % 0x10) * 0x100 + lo, x := hi % 0x10,
           y := lo / 0x10, n := lo % 0x10, kk := lo, fullOp := hi * 0x100 + lo)
  }

  /**
   * The fields are the bit ranges of the 16-bit word drawn in the opcode
   * anatomy: bits 12-15, 0-11, 8-11, 4-7, 0-3 and 0-7.
   */
  lemma {:induction false} DecodeFieldsOfWord(hi: u8, lo: u8)
    ensures var op := Decode(hi, lo); var w := op.fullOp;
      op.op == w / 0x1000 && op.addr == w % 0x1000 && op.x == (w / 0x100) % 0x10 &&
      op.y == (w / 0x10) % 0x10 && op.n == w % 0x10 && op.kk == w % 0x100
  {
    var w := hi * 0x100 + lo;
    assert w / 0x100 == hi && w % 0x100 == lo;
    assert w / 0x1000 == hi / 0x10 && w % 0x1000 == (hi % 0x10) * 0x100 + lo;
    assert w / 0x10 == hi * 0x10 + lo / 0x10;
    assert (w / 0x10) % 0x10 == lo / 0x10;
  }

  /** Reassembles the two instruction bytes from the decoded fields. */
  function Encode(op: Opcode): (bytes: (u8, u8))
  {
    (op.op * 0x10 + op.x, op.y * 0x10 + op.n)
  }

  /** Decoding loses nothing: the fields give back both bytes. */
  lemma {:induction false} EncodeDecode(hi: u8, lo: u8)
    ensures Encode(Decode(hi, lo)) == (hi, lo)
  {
    var op := Decode(hi, lo);
    assert op.op * 0x1000 + op.x * 0x100 + op.kk == hi * 0x100 + lo;
    assert op.op * 0x10 + op.x == hi;
  }

  /** Two byte pairs decode alike only if they are equal. */
  lemma DecodeInjective(hi1: u8, lo1: u8, hi2: u8, lo2: u8)
    requires Decode(hi1, lo1) == Decode(hi2, lo2)
    ensures hi1 == hi2 && lo1 == lo2
  {
    EncodeDecode(hi1, lo1);
    EncodeDecode(hi2, lo2);
  }
}
