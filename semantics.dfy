/*
 * The value-level meaning of the CHIP-8 machine of src/chip8.c: the state
 * record as a datatype and one instruction step as a function of it.  The
 * class `Cpu.Chip8` runs the same instructions in place on arrays and is
 * proved to agree with `Step`; the lemmas of module `Properties` are stated
 * about these functions.
 */
module Semantics {
  import opened Chip8Defs
  import opened Decoder

  datatype Option<T> = None | Some(value: T)

  /** The one fatal condition: an opcode outside the instruction table. */
  datatype Error = UnknownOpcode(op: Opcode)

  datatype Result<T> = Ok(value: T) | Err(error: Error)

  /** The value of a `chip8` record. */
  datatype Machine = Machine(
    mem: seq<u8>,
    stack: seq<u16>,
    I: u16,
    v: seq<u8>,
    pc: u16,
    sp: u16,
    currentOp: Opcode,
    delayTimer: u8,
    soundTimer: u8,
    screen: seq<u8>,
    keyboard: seq<u8>,
    wait: u8,
    exit: u8,
    draw: u8,
    stepCycles: u8,
    debug: u8)

  /** The arrays of the record have their declared sizes. */
  predicate WellFormed(m: Machine) {
    |m.mem| == RAM_SIZE && |m.stack| == STACK_SIZE && |m.v| == NUM_REGISTERS &&
    |m.screen| == SCREEN_SIZE && |m.keyboard| == NUM_KEYS
  }

  function Zeros(n: nat): (s: seq<u8>)
    ensures |s| == n && forall i | 0 <= i < n :: s[i] == 0
  {
    seq(n, _ => 0)
  }

  /** C's conversion of a comparison to 0 or 1. */
  function Flag(b: bool): u8 {
    if b then 1 else 0
  }

  // ---------------------------------------------------------------- bytes

  /** `a & b` on bytes; the result has no bit outside either operand. */
  function AndBits(a: bv8, b: bv8): (r: bv8)
    ensures r & !a == 0 && r & !b == 0
  {
    a & b
  }

  function And8(a: u8, b: u8): u8 {
    AndBits(a as bv8, b as bv8) as int
  }

  function Or8(a: u8, b: u8): u8 {
    ((a as bv8) | (b as bv8)) as int
  }

  function Xor8(a: u8, b: u8): u8 {
    ((a as bv8) ^ (b as bv8)) as int
  }

  /** `b ^ 1`: toggles the low bit of a screen byte. */
  function Flip(b: u8): (r: u8)
    ensures r % 2 != b % 2 && r / 2 == b / 2
  {
    if b % 2 == 0 then b + 1 else b - 1
  }

  // ---------------------------------------------------------------- fetch

  /** The instruction at `pc`, read high byte first (`fetch`). */
  function FetchOp(m: Machine): Opcode
    requires WellFormed(m) && m.pc + 1 < RAM_SIZE
  {
    Decode(m.mem[m.pc], m.mem[m.pc + 1])
  }

  /** `adv`: moves `pc` on by `steps` instructions in 16-bit arithmetic. */
  function Adv(m: Machine, steps: nat): Machine {
    m.(pc := (m.pc + OP_SIZE * steps) % 0x1_0000)
  }

  function SetV(m: Machine, r: u4, b: u8): Machine
    requires WellFormed(m)
  {
    m.(v := m.v[r := b])
  }

  // ---------------------------------------------------------------- control flow

  /** `00E0`: clear every screen cell and request a redraw. */
  function ClearScreen(m: Machine): Machine {
    Adv(m.(screen := Zeros(SCREEN_SIZE), draw := 1), 1)
  }

  /** `2nnn`: push the call's own address and jump. */
  function Call(m: Machine, addr: u16): Machine
    requires WellFormed(m) && m.sp < STACK_SIZE
  {
    m.(stack := m.stack[m.sp := m.pc], sp := m.sp + 1, pc := addr)
  }

  /** `00EE`: pop, and resume after the call instruction. */
  function Return(m: Machine): Machine
    requires WellFormed(m) && 0 < m.sp <= STACK_SIZE
  {
    m.(sp := m.sp - 1, pc := (m.stack[m.sp - 1] + OP_SIZE) % 0x1_0000)
  }

  /** The `0` group: `00E0` and `00EE`. */
  function System(m: Machine, op: Opcode): Result<Machine>
    requires WellFormed(m) && (op.kk == 0xEE ==> 0 < m.sp <= STACK_SIZE)
  {
    if op.kk == 0xE0 then Ok(ClearScreen(m))
    else if op.kk == 0xEE then Ok(Return(m))
    else Err(UnknownOpcode(op))
  }

  /**
   * The `E` group: skip on the key numbered Vx.  `Ex9E` adds the key byte
   * itself to the step count.
   */
  function KeySkip(m: Machine, op: Opcode): Result<Machine>
    requires WellFormed(m) && (op.kk == 0x9E || op.kk == 0xA1 ==> m.v[op.x] < NUM_KEYS)
  {
    var vx := m.v[op.x];
    if op.kk == 0x9E then Ok(Adv(m, 1 + m.keyboard[vx] as int))
    else if op.kk == 0xA1 then Ok(Adv(m, 1 + Flag(m.keyboard[vx] == 0)))
    else Err(UnknownOpcode(op))
  }

  // ---------------------------------------------------------------- 8xyN

  /** The register-to-register group; VF is written before Vx. */
  function Alu(m: Machine, op: Opcode): Result<Machine>
    requires WellFormed(m)
  {
    var vx: int := m.v[op.x];
    var vy: int := m.v[op.y];
    match op.n
    case 0x0 => Ok(Adv(SetV(m, op.x, vy), 1))
    case 0x1 => Ok(Adv(SetV(m, op.x, Or8(vx, vy)), 1))
    case 0x2 => Ok(Adv(SetV(m, op.x, And8(vx, vy)), 1))
    case 0x3 => Ok(Adv(SetV(m, op.x, Xor8(vx, vy)), 1))
    case 0x4 => // the high byte of the 16-bit sum is the carry
      Ok(Adv(SetV(SetV(m, VF_IDX, Flag((vx + vy) / 0x100 > 0)), op.x, (vx + vy) % 0x100), 1))
    case 0x5 => Ok(Adv(SetV(SetV(m, VF_IDX, Flag(vx > vy)), op.x, (vx - vy) % 0x100), 1))
    case 0x6 => Ok(Adv(SetV(SetV(m, VF_IDX, vx % 2), op.x, vx / 2), 1))
    case 0x7 => Ok(Adv(SetV(SetV(m, VF_IDX, Flag(vy > vx)), op.x, (vy - vx) % 0x100), 1))
    case 0xE => Ok(Adv(SetV(SetV(m, VF_IDX, vx / 0x80), op.x, (vx * 2) % 0x100), 1))
    case _ => Err(UnknownOpcode(op))
  }

  // ---------------------------------------------------------------- Dxyn

  /** `pixel & (0x80 >> col)`: bit `col` of a sprite row, counted from the left. */
  predicate SpriteBit(pixel: u8, col: nat)
    requires col < 8
  {
    (pixel as bv8) & ((0x80 as bv8) >> col) != 0
  }

  predicate SpriteBitAt(mem: seq<u8>, i: int, row: int, col: int)
    requires 0 <= i + row < |mem| && 0 <= col < 8
  {
    SpriteBit(mem[i + row], col)
  }

  /** The flat screen index the source computes for sprite pixel (row, col); nothing is wrapped. */
  function CellIndex(vx: int, vy: int, row: int, col: int): int {
    (row + vy) * SCREEN_WIDTH + col + vx
  }

  /** The `n` sprite rows at `i` lie in memory. */
  predicate RowsInMemory(mem: seq<u8>, i: int, n: nat) {
    n == 0 || (0 <= i && i + n <= |mem|)
  }

  /** The sprite drawn by `op` reads memory only and lands every set bit on the screen. */
  predicate SpriteDefined(m: Machine, op: Opcode)
    requires WellFormed(m)
  {
    RowsInMemory(m.mem, m.I, op.n) &&
    forall row, col | 0 <= row < op.n && 0 <= col < 8 && SpriteBitAt(m.mem, m.I, row, col) ::
      CellIndex(m.v[op.x] % SCREEN_WIDTH, m.v[op.y] % SCREEN_HEIGHT, row, col) < SCREEN_SIZE
  }

  /**
   * Whether screen cell `c` is toggled by the sprite of `n` rows at `i`
   * drawn from (vx, vy): the cell's offset from the origin names the one
   * sprite pixel that `CellIndex` could map onto it.
   */
  predicate Touched(mem: seq<u8>, i: int, n: nat, vx: int, vy: int, c: int)
    requires RowsInMemory(mem, i, n)
  {
    var d := c - vy * SCREEN_WIDTH - vx;
    0 <= d && d / SCREEN_WIDTH < n && d % SCREEN_WIDTH < 8 &&
    SpriteBitAt(mem, i, d / SCREEN_WIDTH, d % SCREEN_WIDTH)
  }

  /**
   * `Dxyn`: XOR the sprite into the screen from (Vx mod 64, Vy mod 32); VF
   * tells whether a set sprite bit met a set cell.
   */
  function DrawSprite(m: Machine, op: Opcode): Machine
    requires WellFormed(m) && SpriteDefined(m, op)
  {
    var vx := m.v[op.x] % SCREEN_WIDTH;
    var vy := m.v[op.y] % SCREEN_HEIGHT;
    var screen := seq(SCREEN_SIZE, c requires 0 <= c < SCREEN_SIZE =>
      if Touched(m.mem, m.I, op.n, vx, vy, c) then Flip(m.screen[c]) else m.screen[c]);
    var collision := exists c | 0 <= c < SCREEN_SIZE ::
      Touched(m.mem, m.I, op.n, vx, vy, c) && m.screen[c] != 0;
    Adv(m.(screen := screen, v := m.v[VF_IDX := Flag(collision)], draw := 1), 1)
  }

  // ---------------------------------------------------------------- Fx0A

  /** The lowest index at or above `from` whose key is down. */
  function FirstKey(kb: seq<u8>, from: nat): (k: Option<nat>)
    decreases |kb| - from
    ensures k.Some? ==> from <= k.value < |kb| && kb[k.value] != 0
    ensures k.Some? ==> forall j | from <= j < k.value :: kb[j] == 0
    ensures k.None? <==> forall j | from <= j < |kb| :: kb[j] == 0
  {
    if from >= |kb| then None
    else if kb[from] != 0 then Some(from)
    else FirstKey(kb, from + 1)
  }

  /** `Fx0A`: a poll; without a key down nothing changes, `pc` included. */
  function WaitKey(m: Machine, op: Opcode): Machine
    requires WellFormed(m)
  {
    match FirstKey(m.keyboard, 0)
    case None => m
    case Some(k) => Adv(SetV(m, op.x, k), 1)
  }

  // ---------------------------------------------------------------- Fxkk

  /** `mem[I..I+x] := V0..Vx` (`memcpy`). */
  function StoreRegs(m: Machine, x: u4): Machine
    requires WellFormed(m) && m.I + x < RAM_SIZE
  {
    m.(mem := m.mem[..m.I] + m.v[..x + 1] + m.mem[m.I + x + 1..])
  }

  /** `V0..Vx := mem[I..I+x]` (`memcpy`). */
  function LoadRegs(m: Machine, x: u4): Machine
    requires WellFormed(m) && m.I + x < RAM_SIZE
  {
    m.(v := m.mem[m.I..m.I + x + 1] + m.v[x + 1..])
  }

  predicate MiscDefined(m: Machine, op: Opcode) {
    (op.kk == 0x33 ==> m.I + 2 < RAM_SIZE) &&
    (op.kk == 0x55 || op.kk == 0x65 ==> m.I + op.x < RAM_SIZE)
  }

  /** The `F` group: timers, key wait, index register, BCD and block transfers. */
  function Misc(m: Machine, op: Opcode): Result<Machine>
    requires WellFormed(m) && MiscDefined(m, op)
  {
    var vx := m.v[op.x];
    match op.kk
    case 0x07 => Ok(Adv(SetV(m, op.x, m.delayTimer), 1))
    case 0x0A => Ok(WaitKey(m, op))
    case 0x15 => Ok(Adv(m.(delayTimer := vx), 1))
    case 0x18 => Ok(Adv(m.(soundTimer := vx), 1))
    case 0x1E => Ok(Adv(m.(I := (m.I + vx) % 0x1_0000), 1))
    case 0x29 => Ok(Adv(m.(I := vx * GLYPH_HEIGHT), 1))
    case 0x33 =>
      Ok(Adv(m.(mem := m.mem[m.I := vx / 100][m.I + 1 := (vx / 10) % 10][m.I + 2 := vx % 10]), 1))
    case 0x55 => Ok(Adv(StoreRegs(m, op.x), 1))
    case 0x65 => Ok(Adv(LoadRegs(m, op.x), 1))
    case _ => Err(UnknownOpcode(op))
  }

  // ---------------------------------------------------------------- execute

  /**
   * What the source leaves undefined is excluded here: a stack over- or
   * underflow, a key index above 15, memory past the last byte and a
   * sprite pixel past the last screen cell.
   */
  predicate OperandsDefined(m: Machine, op: Opcode)
    requires WellFormed(m)
  {
    match op.op
    case 0x0 => op.kk == 0xEE ==> 0 < m.sp <= STACK_SIZE
    case 0x2 => m.sp < STACK_SIZE
    case 0xD => SpriteDefined(m, op)
    case 0xE => op.kk == 0x9E || op.kk == 0xA1 ==> m.v[op.x] < NUM_KEYS
    case 0xF => MiscDefined(m, op)
    case _ => true
  }

  /** The step from `m` is defined: both instruction bytes and every operand are in range. */
  predicate Defined(m: Machine)
    requires WellFormed(m)
  {
    m.pc + 1 < RAM_SIZE && OperandsDefined(m, FetchOp(m))
  }

  /** `1nnn`, `2nnn` and `Bnnn`: the jumps and the call. */
  function Jump(m: Machine, op: Opcode): Machine
    requires WellFormed(m) && (op.op == 0x2 ==> m.sp < STACK_SIZE)
  {
    match op.op
    case 0x1 => m.(pc := op.addr)
    case 0x2 => Call(m, op.addr)
    case _ => m.(pc := (op.addr + m.v[0] as int) % 0x1_0000)  // Bnnn
  }

  /**
   * `3xkk`, `4xkk`, `5xyn` and `9xyn`: skip the next instruction on a
   * comparison (the low nibble of `5xyn` and `9xyn` is not checked).
   */
  function Skip(m: Machine, op: Opcode): Machine
    requires WellFormed(m)
  {
    var vx := m.v[op.x];
    var vy := m.v[op.y];
    match op.op
    case 0x3 => Adv(m, 1 + Flag(vx == op.kk))
    case 0x4 => Adv(m, 1 + Flag(vx != op.kk))
    case 0x5 => Adv(m, 1 + Flag(vx == vy))
    case _ => Adv(m, 1 + Flag(vx != vy))  // 9xyn
  }

  /** `6xkk`, `7xkk`, `Annn` and `Cxkk`; `rnd` is the random byte `Cxkk` masks. */
  function Load(m: Machine, op: Opcode, rnd: u8): Machine
    requires WellFormed(m)
  {
    var vx := m.v[op.x];
    match op.op
    case 0x6 => Adv(SetV(m, op.x, op.kk), 1)
    case 0x7 => Adv(SetV(m, op.x, (vx + op.kk) % 0x100), 1)
    case 0xA => Adv(m.(I := op.addr), 1)
    case _ => Adv(SetV(m, op.x, And8(rnd, op.kk)), 1)  // Cxkk
  }

  /**
   * `execute` after `fetch`: one instruction, dispatched on its top nibble
   * (the single `switch` of the source, its cases gathered in groups).
   */
  function Execute(m: Machine, op: Opcode, rnd: u8): Result<Machine>
    requires WellFormed(m) && OperandsDefined(m, op)
  {
    match op.op
    case 0x0 => System(m, op)
    case 0x1 | 0x2 | 0xB => Ok(Jump(m, op))
    case 0x3 | 0x4 | 0x5 | 0x9 => Ok(Skip(m, op))
    case 0x6 | 0x7 | 0xA | 0xC => Ok(Load(m, op, rnd))
    case 0x8 => Alu(m, op)
    case 0xD => Ok(DrawSprite(m, op))
    case 0xE => KeySkip(m, op)
    case _ => Misc(m, op)
  }

  /**
   * One cycle: decode the instruction at `pc` into `currentOp`, then
   * execute it; `rnd` is the random byte `Cxkk` would draw.
   */
  function Step(m: Machine, rnd: u8): Result<Machine>
    requires WellFormed(m) && Defined(m)
  {
    var op := FetchOp(m);
    Execute(m.(currentOp := op), op, rnd)
  }

  /** The instruction table, listed independently of `Execute`. */
  predicate Recognized(op: Opcode) {
    match op.op
    case 0x0 => op.kk in {0xE0, 0xEE}
    case 0x8 => op.n in {0x0, 0x1, 0x2, 0x3, 0x4, 0x5, 0x6, 0x7, 0xE}
    case 0xE => op.kk in {0x9E, 0xA1}
    case 0xF => op.kk in {0x07, 0x0A, 0x15, 0x18, 0x1E, 0x29, 0x33, 0x55, 0x65}
    case _ => true
  }

  // ---------------------------------------------------------------- init and reset

  /** Bytes per stack entry (`uint16_t`). */
  const STACK_ENTRY_BYTES: nat := 2

  /** The stack with its first `entries` entries zeroed. */
  function ClearStack(stack: seq<u16>, entries: nat): (s: seq<u16>)
  {
    seq(|stack|, i requires 0 <= i < |stack| => if i < entries then 0 else stack[i])
  }

  /**
   * `reset_emulator` with `memset(stack, 0, k)` clearing `k` entries:
   * screen, registers, keys and the gap between font and program cleared,
   * `pc` at the program start, the font and program bytes kept.
   */
  function ResetClearing(m: Machine, entries: nat): Machine
    requires WellFormed(m)
  {
    m.(screen := Zeros(SCREEN_SIZE),
       mem := m.mem[..FONT_SET_SIZE] + Zeros(PROGRAM_START - FONT_SET_SIZE) + m.mem[PROGRAM_START..],
       v := Zeros(NUM_REGISTERS),
       keyboard := Zeros(NUM_KEYS),
       stack := ClearStack(m.stack, entries),
       pc := PROGRAM_START, sp := 0, I := 0,
       delayTimer := 0, soundTimer := 0, exit := 0, stepCycles := 0, draw := 1, wait := 0)
  }

  /**
   * `reset_emulator` as written: `memset` counts bytes, so its
   * `STACK_SIZE` bytes reach only the first half of the two-byte entries.
   */
  function ResetAsWritten(m: Machine): Machine
    requires WellFormed(m)
  {
    ResetClearing(m, STACK_SIZE / STACK_ENTRY_BYTES)
  }

  /** `reset_emulator` as evidently intended: the whole stack cleared. */
  function Reset(m: Machine): Machine
    requires WellFormed(m)
  {
    ResetClearing(m, STACK_SIZE)
  }

  /** The largest ROM that fits above the program start. */
  const MAX_ROM_SIZE: nat := RAM_SIZE - PROGRAM_START

  /**
   * The register, memory and font part of `init_emulator`: zeroed memory
   * with the font at 0 and the ROM at `PROGRAM_START`.  The source leaves
   * `current_op` unset (the value here is the decoding of 0000) and the
   * caller clears `debug` (src/main.c:35).
   */
  function InitMachine(rom: seq<u8>): Machine
    requires |rom| <= MAX_ROM_SIZE
  {
    Machine(
      mem := FONT_SET + Zeros(PROGRAM_START - FONT_SET_SIZE) + rom + Zeros(MAX_ROM_SIZE - |rom|),
      stack := seq(STACK_SIZE, _ => 0),
      I := 0,
      v := Zeros(NUM_REGISTERS),
      pc := PROGRAM_START,
      sp := 0,
      currentOp := Decode(0, 0),
      delayTimer := 0,
      soundTimer := 0,
      screen := Zeros(SCREEN_SIZE),
      keyboard := Zeros(NUM_KEYS),
      wait := 0,
      exit := 0,
      draw := 1,
      stepCycles := 0,
      debug := 0)
  }
}
