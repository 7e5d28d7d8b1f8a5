/*
 * What the instructions of src/chip8.c promise, stated about the
 * value-level semantics of module `Semantics` (which the class
 * `Cpu.Chip8` is proved to follow step by step).
 */
module Properties {
  import opened Chip8Defs
  import opened Decoder
  import opened Semantics

  /** `pc` moved on by `k` instructions: the `pc` that `Semantics.Adv` gives. */
  function PcAfter(m: Machine, k: nat): u16 {
    Adv(m, k).pc
  }

  // ---------------------------------------------------------------- decoding

  /**
   * A step records the instruction it ran: the big-endian word at `pc`,
   * whatever the instruction did to the rest of the machine.
   */
  lemma {:induction false} StepRecordsFetchedOp(m: Machine, rnd: u8)
    requires WellFormed(m) && Defined(m) && Step(m, rnd).Ok?
    ensures Step(m, rnd).value.currentOp == FetchOp(m)
    ensures FetchOp(m).fullOp == m.mem[m.pc] as int * 0x100 + m.mem[m.pc + 1]
  {
    var op := FetchOp(m);
    ExecuteKeepsOp(m.(currentOp := op), op, rnd);
  }

  /** No instruction writes `currentOp`. */
  lemma ExecuteKeepsOp(m: Machine, op: Opcode, rnd: u8)
    requires WellFormed(m) && OperandsDefined(m, op) && Execute(m, op, rnd).Ok?
    ensures Execute(m, op, rnd).value.currentOp == m.currentOp
  {
    if op.op == 0xF && op.kk == 0x0A {
      match FirstKey(m.keyboard, 0)
      case None =>
      case Some(k) =>
    }
  }

  // ---------------------------------------------------------------- 8xyN

  /**
   * `8xy4`: Vx is the low byte of the sum and VF its carry, so together
   * they hold the whole sum.  VF is written first: when x is F the sum's
   * low byte replaces the carry.  No other register changes.
   */
  lemma AddSetsCarry(m: Machine, op: Opcode, rnd: u8)
    requires WellFormed(m) && op.op == 0x8 && op.n == 0x4
    ensures Execute(m, op, rnd).Ok?
    ensures var r := Execute(m, op, rnd).value; var sum := m.v[op.x] as int + m.v[op.y];
      |r.v| == NUM_REGISTERS && r.v[op.x] == sum % 0x100 &&
      (op.x != VF_IDX ==> (r.v[VF_IDX] == 1 <==> sum > 0xFF) && r.v[VF_IDX] as int * 0x100 + r.v[op.x] == sum) &&
      (forall i | 0 <= i < NUM_REGISTERS && i != op.x && i != VF_IDX :: r.v[i] == m.v[i]) &&
      r == m.(v := r.v, pc := PcAfter(m, 1))
  {
  }

  /**
   * `8xy5`: Vx := Vx - Vy modulo 256 and VF = 1 exactly when Vx is
   * strictly greater than Vy (equal operands give VF = 0).
   */
  lemma SubSetsNotBorrow(m: Machine, op: Opcode, rnd: u8)
    requires WellFormed(m) && op.op == 0x8 && op.n == 0x5
    ensures Execute(m, op, rnd).Ok?
    ensures var r := Execute(m, op, rnd).value; var vx := m.v[op.x]; var vy := m.v[op.y];
      |r.v| == NUM_REGISTERS && (r.v[op.x] as int + vy) % 0x100 == vx &&
      (op.x != VF_IDX ==> (r.v[VF_IDX] == 1 <==> vx > vy) && r.v[VF_IDX] <= 1) &&
      (forall i | 0 <= i < NUM_REGISTERS && i != op.x && i != VF_IDX :: r.v[i] == m.v[i]) &&
      r == m.(v := r.v, pc := PcAfter(m, 1))
  {
  }

  /** `8xy7`: Vx := Vy - Vx modulo 256 and VF = 1 exactly when Vy > Vx. */
  lemma SubnSetsNotBorrow(m: Machine, op: Opcode, rnd: u8)
    requires WellFormed(m) && op.op == 0x8 && op.n == 0x7
    ensures Execute(m, op, rnd).Ok?
    ensures var r := Execute(m, op, rnd).value; var vx := m.v[op.x]; var vy := m.v[op.y];
      |r.v| == NUM_REGISTERS && (r.v[op.x] as int + vx) % 0x100 == vy &&
      (op.x != VF_IDX ==> (r.v[VF_IDX] == 1 <==> vy > vx) && r.v[VF_IDX] <= 1) &&
      (forall i | 0 <= i < NUM_REGISTERS && i != op.x && i != VF_IDX :: r.v[i] == m.v[i]) &&
      r == m.(v := r.v, pc := PcAfter(m, 1))
  {
  }

  /**
   * `8xy6`: Vx itself shifts right and VF receives the bit shifted out;
   * VF is written first, so for x = F the shifted value replaces the flag.
   */
  lemma ShiftRightKeepsOutBit(m: Machine, op: Opcode, rnd: u8)
    requires WellFormed(m) && op.op == 0x8 && op.n == 0x6
    ensures Execute(m, op, rnd).Ok?
    ensures var r := Execute(m, op, rnd).value;
      |r.v| == NUM_REGISTERS && r.v[op.x] == m.v[op.x] / 2 &&
      (op.x != VF_IDX ==> r.v[VF_IDX] <= 1 && r.v[op.x] * 2 + r.v[VF_IDX] == m.v[op.x]) &&
      (forall i | 0 <= i < NUM_REGISTERS && i != op.x && i != VF_IDX :: r.v[i] == m.v[i]) &&
      r == m.(v := r.v, pc := PcAfter(m, 1))
  {
  }

  /**
   * `8xyE`: Vx itself shifts left and VF receives the bit shifted out;
   * VF is written first, so for x = F the shifted value replaces the flag.
   */
  lemma ShiftLeftKeepsOutBit(m: Machine, op: Opcode, rnd: u8)
    requires WellFormed(m) && op.op == 0x8 && op.n == 0xE
    ensures Execute(m, op, rnd).Ok?
    ensures var r := Execute(m, op, rnd).value;
      |r.v| == NUM_REGISTERS && r.v[op.x] == (m.v[op.x] as int * 2) % 0x100 &&
      (op.x != VF_IDX ==> r.v[VF_IDX] <= 1 && r.v[VF_IDX] as int * 0x100 + r.v[op.x] == m.v[op.x] as int * 2) &&
      (forall i | 0 <= i < NUM_REGISTERS && i != op.x && i != VF_IDX :: r.v[i] == m.v[i]) &&
      r == m.(v := r.v, pc := PcAfter(m, 1))
  {
  }

  /** The shifts read Vx only: changing Vy (another register than Vx and VF) changes nothing else. */
  lemma {:induction false} ShiftIgnoresVy(m: Machine, op: Opcode, rnd: u8, b: u8)
    requires WellFormed(m) && op.op == 0x8 && (op.n == 0x6 || op.n == 0xE)
    requires op.y != op.x && op.y != VF_IDX
    ensures Execute(m, op, rnd).Ok? && Execute(SetV(m, op.y, b), op, rnd).Ok?
    ensures Execute(SetV(m, op.y, b), op, rnd).value == SetV(Execute(m, op, rnd).value, op.y, b)
  {
    var vx := m.v[op.x];
    var flag: u8 := if op.n == 0x6 then vx % 2 else vx / 0x80;
    var res: u8 := if op.n == 0x6 then vx / 2 else (vx as int * 2) % 0x100;
    assert m.v[op.y := b][VF_IDX := flag][op.x := res] == m.v[VF_IDX := flag][op.x := res][op.y := b];
  }

  /** `7xkk` adds without a carry: VF is left alone unless it is the target. */
  lemma AddImmediateKeepsFlag(m: Machine, op: Opcode, rnd: u8)
    requires WellFormed(m) && op.op == 0x7
    ensures Execute(m, op, rnd).Ok?
    ensures var r := Execute(m, op, rnd).value;
      |r.v| == NUM_REGISTERS && (r.v[op.x] - m.v[op.x] - op.kk) % 0x100 == 0 &&
      (forall i | 0 <= i < NUM_REGISTERS && i != op.x :: r.v[i] == m.v[i]) &&
      r == m.(v := r.v, pc := PcAfter(m, 1))
  {
  }

  lemma ByteRoundTrip(a: bv8)
    ensures (a as int) as bv8 == a
  {
  }

  /** `a & b` on bytes has no bit set outside `b`. */
  lemma {:induction false} AndMasks(a: u8, b: u8)
    ensures (And8(a, b) as bv8) & !(b as bv8) == 0
  {
    ByteRoundTrip(AndBits(a as bv8, b as bv8));
  }

  /** `Cxkk`: whatever the random byte, Vx has no bit set outside `kk`. */
  lemma {:induction false} RandomByteMasked(m: Machine, op: Opcode, rnd: u8)
    requires WellFormed(m) && op.op == 0xC
    ensures Execute(m, op, rnd).Ok?
    ensures var r := Execute(m, op, rnd).value;
      |r.v| == NUM_REGISTERS && (r.v[op.x] as bv8) & !(op.kk as bv8) == 0 &&
      r == m.(v := m.v[op.x := r.v[op.x]], pc := PcAfter(m, 1))
  {
    var r := Execute(m, op, rnd).value;
    assert r.v[op.x] == And8(rnd, op.kk);
    AndMasks(rnd, op.kk);
  }

  // ---------------------------------------------------------------- program counter

  /** The instructions that skip the next one when their condition holds. */
  predicate IsSkip(op: Opcode) {
    op.op == 0x3 || op.op == 0x4 || op.op == 0x5 || op.op == 0x9 ||
    (op.op == 0xE && (op.kk == 0x9E || op.kk == 0xA1))
  }

  /** The condition of each skip, written from the instruction table. */
  predicate SkipTaken(m: Machine, op: Opcode)
    requires WellFormed(m) && IsSkip(op) && (op.op == 0xE ==> m.v[op.x] < NUM_KEYS)
  {
    match op.op
    case 0x3 => m.v[op.x] == op.kk
    case 0x4 => m.v[op.x] != op.kk
    case 0x5 => m.v[op.x] == m.v[op.y]
    case 0x9 => m.v[op.x] != m.v[op.y]
    case _ => (m.keyboard[m.v[op.x]] != 0) == (op.kk == 0x9E)
  }

  /**
   * A skip moves `pc` on by two instructions when its condition holds and
   * by one otherwise, and changes nothing else.  `Ex9E` adds the key's byte
   * itself, so this needs the key bytes the host writes, 0 and 1.
   */
  lemma SkipAdvancesTwoOrOne(m: Machine, op: Opcode, rnd: u8)
    requires WellFormed(m) && IsSkip(op) && OperandsDefined(m, op)
    requires op.op == 0xE ==> m.keyboard[m.v[op.x]] <= 1
    ensures Execute(m, op, rnd) == Ok(m.(pc := PcAfter(m, if SkipTaken(m, op) then 2 else 1)))
  {
  }

  /**
   * Every instruction other than a jump, call, return, skip or key wait
   * that succeeds moves `pc` on by exactly one instruction.
   */
  lemma StraightLineAdvancesOne(m: Machine, op: Opcode, rnd: u8)
    requires WellFormed(m) && OperandsDefined(m, op) && Execute(m, op, rnd).Ok?
    requires op.op == 0x6 || op.op == 0x7 || op.op == 0x8 || op.op == 0xA ||
             op.op == 0xC || op.op == 0xD || (op.op == 0xF && op.kk != 0x0A) ||
             (op.op == 0x0 && op.kk == 0xE0)
    ensures Execute(m, op, rnd).value.pc == PcAfter(m, 1)
  {
    match op.op
    case 0x0 => assert Execute(m, op, rnd) == System(m, op);
    case 0x6 => assert Execute(m, op, rnd) == Ok(Load(m, op, rnd));
    case 0x7 => assert Execute(m, op, rnd) == Ok(Load(m, op, rnd));
    case 0x8 => assert Execute(m, op, rnd) == Alu(m, op);
    case 0xA => assert Execute(m, op, rnd) == Ok(Load(m, op, rnd));
    case 0xC => assert Execute(m, op, rnd) == Ok(Load(m, op, rnd));
    case 0xD => assert Execute(m, op, rnd) == Ok(DrawSprite(m, op));
    case 0xF => assert Execute(m, op, rnd) == Misc(m, op);
  }

  /** `1nnn` goes to nnn and `Bnnn` to nnn + V0, with no advance and nothing else changed. */
  lemma JumpsReplacePc(m: Machine, op: Opcode, rnd: u8)
    requires WellFormed(m) && (op.op == 0x1 || op.op == 0xB)
    ensures Execute(m, op, rnd).Ok?
    ensures var r := Execute(m, op, rnd).value;
      r == m.(pc := r.pc) &&
      (op.op == 0x1 ==> r.pc == op.addr) &&
      (op.op == 0xB ==> r.pc == (op.addr + m.v[0] as int) % 0x1_0000)
  {
  }

  /**
   * `2nnn` then `00EE`: the call pushes its own address and jumps; the
   * return pops it and resumes at the instruction after the call, with
   * `sp` back where it was.
   */
  lemma CallThenReturn(m: Machine, call: Opcode, ret: Opcode, rnd: u8)
    requires WellFormed(m) && call.op == 0x2 && m.sp < STACK_SIZE
    requires ret.op == 0x0 && ret.kk == 0xEE
    ensures Execute(m, call, rnd).Ok?
    ensures var c := Execute(m, call, rnd).value;
      c.pc == call.addr && c.sp == m.sp + 1 && WellFormed(c) && OperandsDefined(c, ret) &&
      Execute(c, ret, rnd).Ok? &&
      Execute(c, ret, rnd).value == m.(stack := m.stack[m.sp := m.pc], pc := PcAfter(m, 1))
  {
  }

  // ---------------------------------------------------------------- memory

  /**
   * `Fx33`: the three bytes at I are the decimal digits of Vx, hundreds
   * first; no other byte and no register changes.
   */
  lemma {:induction false} BcdDigits(m: Machine, op: Opcode, rnd: u8)
    requires WellFormed(m) && op.op == 0xF && op.kk == 0x33 && m.I + 2 < RAM_SIZE
    ensures Execute(m, op, rnd).Ok?
    ensures var r := Execute(m, op, rnd).value;
      var a := r.mem[m.I]; var b := r.mem[m.I + 1]; var c := r.mem[m.I + 2];
      a <= 9 && b <= 9 && c <= 9 && 100 * a + 10 * b + c == m.v[op.x] &&
      (forall j | 0 <= j < RAM_SIZE && !(m.I <= j <= m.I + 2) :: r.mem[j] == m.mem[j]) &&
      r == m.(mem := r.mem, pc := PcAfter(m, 1))
  {
    var v := m.v[op.x];
    assert v == 10 * (v / 10) + v % 10;
    assert v / 10 == 10 * (v / 100) + (v / 10) % 10;
  }

  /**
   * `Fx55`: V0..Vx land at I..I+x; the registers and every other byte of
   * memory keep their values.
   */
  lemma {:induction false} StoreRegistersFrame(m: Machine, op: Opcode, rnd: u8)
    requires WellFormed(m) && op.op == 0xF && op.kk == 0x55 && m.I + op.x < RAM_SIZE
    ensures Execute(m, op, rnd).Ok?
    ensures var r := Execute(m, op, rnd).value;
      |r.mem| == RAM_SIZE &&
      (forall i | 0 <= i <= op.x :: r.mem[m.I + i] == m.v[i]) &&
      (forall j | 0 <= j < RAM_SIZE && !(m.I <= j <= m.I + op.x) :: r.mem[j] == m.mem[j]) &&
      r == m.(mem := r.mem, pc := PcAfter(m, 1))
  {
    var r := Execute(m, op, rnd).value;
    assert r.mem == m.mem[..m.I] + m.v[..op.x + 1] + m.mem[m.I + op.x + 1..];
  }

  /**
   * `Fx65`: V0..Vx take the bytes at I..I+x; the registers above Vx and
   * memory keep their values.
   */
  lemma {:induction false} LoadRegistersFrame(m: Machine, op: Opcode, rnd: u8)
    requires WellFormed(m) && op.op == 0xF && op.kk == 0x65 && m.I + op.x < RAM_SIZE
    ensures Execute(m, op, rnd).Ok?
    ensures var r := Execute(m, op, rnd).value;
      |r.v| == NUM_REGISTERS &&
      (forall i | 0 <= i <= op.x :: r.v[i] == m.mem[m.I + i]) &&
      (forall i | op.x < i < NUM_REGISTERS :: r.v[i] == m.v[i]) &&
      r == m.(v := r.v, pc := PcAfter(m, 1))
  {
    var r := Execute(m, op, rnd).value;
    assert r.v == m.mem[m.I..m.I + op.x + 1] + m.v[op.x + 1..];
  }

  /** The `F` group of `execute` is `Misc`: the lemmas stated about `Misc` hold of `Execute`. */
  lemma FGroupIsMisc(m: Machine, op: Opcode, rnd: u8)
    requires WellFormed(m) && op.op == 0xF && MiscDefined(m, op)
    ensures OperandsDefined(m, op) && Execute(m, op, rnd) == Misc(m, op)
  {
  }

  /** Loading V0..Vy back from where V0..Vx (y <= x) were stored gives the registers back. */
  lemma {:induction false} LoadAfterStore(m: Machine, xs: u4, xl: u4)
    requires WellFormed(m) && m.I + xs < RAM_SIZE && xl <= xs
    ensures WellFormed(StoreRegs(m, xs))
    ensures LoadRegs(StoreRegs(m, xs), xl).v == m.v
  {
    var s := StoreRegs(m, xs);
    var r := LoadRegs(s, xl);
    forall i | 0 <= i < NUM_REGISTERS
      ensures r.v[i] == m.v[i]
    {
      if i <= xl {
        assert r.v[i] == s.mem[m.I + i];
        assert s.mem[m.I + i] == m.v[i];
      }
    }
  }

  /**
   * `Fx55` then `Fy65` at the same I with y <= x (the `F` group of
   * `execute`): every register is back to its value before the store, and
   * memory outside I..I+x is untouched.
   */
  lemma {:induction false} StoreThenLoadRestores(m: Machine, store: Opcode, load: Opcode)
    requires WellFormed(m) && m.I + store.x < RAM_SIZE
    requires store.kk == 0x55 && load.kk == 0x65 && load.x <= store.x
    ensures MiscDefined(m, store) && Misc(m, store).Ok?
    ensures var s := Misc(m, store).value;
      WellFormed(s) && MiscDefined(s, load) && Misc(s, load).Ok? &&
      var r := Misc(s, load).value;
      r.v == m.v && r.I == m.I && r.pc == PcAfter(m, 2) &&
      (forall j | 0 <= j < RAM_SIZE && !(m.I <= j <= m.I + store.x) :: r.mem[j] == m.mem[j])
  {
    LoadAfterStore(m, store.x, load.x);
    var stored := StoreRegs(m, store.x);
    assert stored.mem == m.mem[..m.I] + m.v[..store.x + 1] + m.mem[m.I + store.x + 1..];
  }

  /** `Fx15` then `Fy07`: Vy reads back the value Vx put into the delay timer. */
  lemma DelayTimerRoundTrip(m: Machine, setOp: Opcode, getOp: Opcode, rnd: u8)
    requires WellFormed(m) && setOp.op == 0xF && setOp.kk == 0x15 && getOp.op == 0xF && getOp.kk == 0x07
    ensures Execute(m, setOp, rnd).Ok?
    ensures var s := Execute(m, setOp, rnd).value;
      WellFormed(s) && s.delayTimer == m.v[setOp.x] && Execute(s, getOp, rnd).Ok? &&
      Execute(s, getOp, rnd).value == m.(delayTimer := m.v[setOp.x], v := m.v[getOp.x := m.v[setOp.x]], pc := PcAfter(m, 2))
  {
  }

  /**
   * `Fx29` with a digit in Vx points I at that digit's glyph, provided the
   * font is loaded: the five rows there are the digit's rows, and nothing
   * else but the program counter changes.
   */
  lemma {:induction false} GlyphForDigit(m: Machine, op: Opcode)
    requires WellFormed(m) && op.kk == 0x29 && m.v[op.x] < 16
    requires m.mem[..FONT_SET_SIZE] == FONT_SET
    ensures Misc(m, op).Ok?
    ensures var r := Misc(m, op).value;
      r.I == GlyphAddress(m.v[op.x]) && r.I + GLYPH_HEIGHT <= FONT_SET_SIZE &&
      r.mem[r.I..r.I + GLYPH_HEIGHT] == Glyph(m.v[op.x]) &&
      r == m.(I := r.I, pc := PcAfter(m, 1))
  {
    var d := m.v[op.x];
    var a := GlyphAddress(d);
    assert Misc(m, op) == Ok(m.(I := a, pc := PcAfter(m, 1)));
    FontSetShape();
    assert m.mem[a..a + GLYPH_HEIGHT] == m.mem[..FONT_SET_SIZE][a..a + GLYPH_HEIGHT];
  }

  // ---------------------------------------------------------------- Dxyn

  /** The cell the source's index formula gives for pixel (row, col) of a sprite. */
  function PixelCell(m: Machine, op: Opcode, row: nat, col: nat): int
    requires WellFormed(m)
  {
    CellIndex(m.v[op.x] % SCREEN_WIDTH, m.v[op.y] % SCREEN_HEIGHT, row, col)
  }

  /** Some set bit of the sprite of `op` is mapped onto cell `c`. */
  predicate Reaches(m: Machine, op: Opcode, c: int)
    requires WellFormed(m) && RowsInMemory(m.mem, m.I, op.n)
  {
    exists row: nat, col: nat | row < op.n && col < 8 ::
      SpriteBitAt(m.mem, m.I, row, col) && PixelCell(m, op, row, col) == c
  }

  lemma RowColumnOffset(row: nat, col: nat)
    requires col < SCREEN_WIDTH
    ensures (row * SCREEN_WIDTH + col) / SCREEN_WIDTH == row
    ensures (row * SCREEN_WIDTH + col) % SCREEN_WIDTH == col
  {
  }

  /**
   * The cells `DrawSprite` toggles are exactly the cells the source's
   * flat index `(y + Vy) * 64 + x + Vx` reaches from a set sprite bit.
   */
  lemma {:induction false} TouchedIffReached(m: Machine, op: Opcode, c: int)
    requires WellFormed(m) && RowsInMemory(m.mem, m.I, op.n)
    ensures Touched(m.mem, m.I, op.n, m.v[op.x] % SCREEN_WIDTH, m.v[op.y] % SCREEN_HEIGHT, c) <==>
      Reaches(m, op, c)
  {
    var vx := m.v[op.x] % SCREEN_WIDTH;
    var vy := m.v[op.y] % SCREEN_HEIGHT;
    var d := c - vy * SCREEN_WIDTH - vx;
    if Touched(m.mem, m.I, op.n, vx, vy, c) {
      var row: nat, col: nat := d / SCREEN_WIDTH, d % SCREEN_WIDTH;
      assert d == row * SCREEN_WIDTH + col;
      assert PixelCell(m, op, row, col) == c;
    }
    if Reaches(m, op, c) {
      var row: nat, col: nat :| row < op.n && col < 8 &&
        SpriteBitAt(m.mem, m.I, row, col) && PixelCell(m, op, row, col) == c;
      assert d == row * SCREEN_WIDTH + col;
      RowColumnOffset(row, col);
    }
  }

  /** The cells `DrawSprite` toggles are the reached cells, cell by cell. */
  lemma TouchedIffReachedAll(m: Machine, op: Opcode)
    requires WellFormed(m) && RowsInMemory(m.mem, m.I, op.n)
    ensures forall c | 0 <= c < SCREEN_SIZE ::
      Touched(m.mem, m.I, op.n, m.v[op.x] % SCREEN_WIDTH, m.v[op.y] % SCREEN_HEIGHT, c) <==>
      Reaches(m, op, c)
  {
    forall c | 0 <= c < SCREEN_SIZE
      ensures Touched(m.mem, m.I, op.n, m.v[op.x] % SCREEN_WIDTH, m.v[op.y] % SCREEN_HEIGHT, c) <==>
        Reaches(m, op, c)
    {
      TouchedIffReached(m, op, c);
    }
  }

  /**
   * `Dxyn`: VF = 1 exactly when some set sprite bit lands on a set cell,
   * read before it is toggled, and VF = 0 otherwise.
   */
  lemma {:induction false} DrawCollision(m: Machine, op: Opcode)
    requires WellFormed(m) && SpriteDefined(m, op)
    ensures var r := DrawSprite(m, op);
      |r.v| == NUM_REGISTERS && r.v[VF_IDX] <= 1 &&
      (r.v[VF_IDX] == 1 <==> exists c | 0 <= c < SCREEN_SIZE :: Reaches(m, op, c) && m.screen[c] != 0)
  {
    TouchedIffReachedAll(m, op);
  }

  /**
   * `Dxyn`: the reached cells are toggled, every other cell is kept, VF is
   * the only register written, `draw` is raised and `pc` moves on by one
   * instruction.
   */
  lemma {:induction false} DrawToggles(m: Machine, op: Opcode)
    requires WellFormed(m) && SpriteDefined(m, op)
    ensures var r := DrawSprite(m, op);
      |r.screen| == SCREEN_SIZE &&
      (forall c | 0 <= c < SCREEN_SIZE ::
        r.screen[c] == if Reaches(m, op, c) then Flip(m.screen[c]) else m.screen[c]) &&
      r == m.(screen := r.screen, v := m.v[VF_IDX := r.v[VF_IDX]], draw := 1, pc := PcAfter(m, 1))
  {
    TouchedIffReachedAll(m, op);
  }

  /**
   * The sprite origin is taken modulo the screen size: Vx and Vx + 64 (or
   * any other value with the same remainder) draw the same picture.
   */
  lemma DrawOriginWraps(m: Machine, op: Opcode, b: u8)
    requires WellFormed(m) && SpriteDefined(m, op) && op.x != op.y && op.x != VF_IDX
    requires b % SCREEN_WIDTH == m.v[op.x] % SCREEN_WIDTH
    ensures SpriteDefined(SetV(m, op.x, b), op)
    ensures DrawSprite(SetV(m, op.x, b), op) == SetV(DrawSprite(m, op), op.x, b)
  {
  }

  /**
   * A draw whose coordinates are not in VF leaves everything the next draw
   * of the same sprite reads as it was: memory, I and both coordinates.
   */
  lemma DrawKeepsOperands(m: Machine, op: Opcode)
    requires WellFormed(m) && SpriteDefined(m, op) && op.x != VF_IDX && op.y != VF_IDX
    ensures var d := DrawSprite(m, op);
      WellFormed(d) && d.mem == m.mem && d.I == m.I &&
      d.v[op.x] == m.v[op.x] && d.v[op.y] == m.v[op.y] && SpriteDefined(d, op)
  {
  }

  /**
   * Drawing the same sprite twice restores the screen, provided neither
   * coordinate register is VF (which the first draw overwrites).
   */
  lemma {:induction false} DrawTwiceRestores(m: Machine, op: Opcode)
    requires WellFormed(m) && SpriteDefined(m, op) && op.x != VF_IDX && op.y != VF_IDX
    ensures WellFormed(DrawSprite(m, op)) && SpriteDefined(DrawSprite(m, op), op)
    ensures DrawSprite(DrawSprite(m, op), op).screen == m.screen
  {
    var d := DrawSprite(m, op);
    DrawKeepsOperands(m, op);
    var vx := m.v[op.x] % SCREEN_WIDTH;
    var vy := m.v[op.y] % SCREEN_HEIGHT;
    var r := DrawSprite(d, op);
    forall c | 0 <= c < SCREEN_SIZE
      ensures r.screen[c] == m.screen[c]
    {
      if Touched(m.mem, m.I, op.n, vx, vy, c) {
        assert r.screen[c] == Flip(Flip(m.screen[c]));
      }
    }
  }

  /** After a draw that met no set cell, redrawing meets the cell of any set sprite bit. */
  lemma {:induction false} RedrawMeetsBit(m: Machine, op: Opcode, row: nat, col: nat)
    requires WellFormed(m) && SpriteDefined(m, op) && op.x != VF_IDX && op.y != VF_IDX
    requires DrawSprite(m, op).v[VF_IDX] == 0
    requires row < op.n && col < 8 && SpriteBitAt(m.mem, m.I, row, col)
    ensures WellFormed(DrawSprite(m, op)) && SpriteDefined(DrawSprite(m, op), op)
    ensures DrawSprite(DrawSprite(m, op), op).v[VF_IDX] == 1
  {
    var d := DrawSprite(m, op);
    DrawKeepsOperands(m, op);
    DrawCollision(m, op);
    DrawToggles(m, op);
    DrawCollision(d, op);
    var c := PixelCell(m, op, row, col);
    assert Reaches(m, op, c);
    assert Reaches(d, op, c) by {
      assert SpriteBitAt(d.mem, d.I, row, col) && PixelCell(d, op, row, col) == c;
    }
    assert 0 <= c < SCREEN_SIZE;
    assert m.screen[c] == 0;
    assert d.screen[c] == Flip(m.screen[c]);
  }

  /**
   * After a draw that met no set cell, drawing the same sprite again
   * reports a collision exactly when the sprite has a set bit.
   */
  lemma {:induction false} RedrawCollides(m: Machine, op: Opcode)
    requires WellFormed(m) && SpriteDefined(m, op) && op.x != VF_IDX && op.y != VF_IDX
    requires DrawSprite(m, op).v[VF_IDX] == 0
    ensures WellFormed(DrawSprite(m, op)) && SpriteDefined(DrawSprite(m, op), op)
    ensures DrawSprite(DrawSprite(m, op), op).v[VF_IDX] == 1 <==>
      exists row: nat, col: nat | row < op.n && col < 8 :: SpriteBitAt(m.mem, m.I, row, col)
  {
    var d := DrawSprite(m, op);
    DrawKeepsOperands(m, op);
    if exists row: nat, col: nat | row < op.n && col < 8 :: SpriteBitAt(m.mem, m.I, row, col) {
      var row: nat, col: nat :| row < op.n && col < 8 && SpriteBitAt(m.mem, m.I, row, col);
      RedrawMeetsBit(m, op, row, col);
    }
    if DrawSprite(d, op).v[VF_IDX] == 1 {
      DrawCollision(d, op);
      var c :| 0 <= c < SCREEN_SIZE && Reaches(d, op, c) && d.screen[c] != 0;
      var row: nat, col: nat :| row < op.n && col < 8 &&
        SpriteBitAt(d.mem, d.I, row, col) && PixelCell(d, op, row, col) == c;
      assert SpriteBitAt(m.mem, m.I, row, col);
    }
  }

  // ---------------------------------------------------------------- Fx0A

  /** `Fx0A` with no key down is a no-op, `pc` included: the instruction runs again next cycle. */
  lemma WaitKeyIdle(m: Machine, op: Opcode, rnd: u8)
    requires WellFormed(m) && op.op == 0xF && op.kk == 0x0A
    requires forall k | 0 <= k < NUM_KEYS :: m.keyboard[k] == 0
    ensures Execute(m, op, rnd) == Ok(m)
  {
  }

  /** `Fx0A` with a key down: Vx is the lowest key down and `pc` moves on. */
  lemma WaitKeyTakesLowest(m: Machine, op: Opcode, rnd: u8, k: nat)
    requires WellFormed(m) && op.op == 0xF && op.kk == 0x0A
    requires k < NUM_KEYS && m.keyboard[k] != 0 && forall j | 0 <= j < k :: m.keyboard[j] == 0
    ensures Execute(m, op, rnd) == Ok(m.(v := m.v[op.x := k], pc := PcAfter(m, 1)))
  {
  }

  // ---------------------------------------------------------------- unknown opcodes

  /**
   * An instruction fails exactly when it is missing from the instruction
   * table, and the failure names it.
   */
  lemma UnknownIffUnlisted(m: Machine, op: Opcode, rnd: u8)
    requires WellFormed(m) && OperandsDefined(m, op)
    ensures Execute(m, op, rnd).Err? <==> !Recognized(op)
    ensures Execute(m, op, rnd).Err? ==> Execute(m, op, rnd).error == UnknownOpcode(op)
  {
  }

  // ---------------------------------------------------------------- screen, init, reset

  /** `00E0`: every cell is blank, `draw` is raised, nothing else but `pc` changes. */
  lemma ClearScreenBlanks(m: Machine, op: Opcode, rnd: u8)
    requires WellFormed(m) && op.op == 0x0 && op.kk == 0xE0
    ensures Execute(m, op, rnd).Ok?
    ensures var r := Execute(m, op, rnd).value;
      |r.screen| == SCREEN_SIZE && (forall c | 0 <= c < SCREEN_SIZE :: r.screen[c] == 0) &&
      r == m.(screen := r.screen, draw := 1, pc := PcAfter(m, 1))
  {
  }

  /**
   * `reset_emulator` (whole stack cleared): registers, keys, stack and
   * screen are zero, `pc` is at the program start, the gap between font
   * and program is zero, and the font and program bytes are kept.
   */
  lemma ResetEffects(m: Machine)
    requires WellFormed(m)
    ensures var r := Reset(m);
      WellFormed(r) && r.pc == PROGRAM_START && r.sp == 0 && r.I == 0 && r.draw == 1 &&
      (forall i | 0 <= i < NUM_REGISTERS :: r.v[i] == 0) &&
      (forall i | 0 <= i < NUM_KEYS :: r.keyboard[i] == 0) &&
      (forall i | 0 <= i < STACK_SIZE :: r.stack[i] == 0) &&
      (forall i | 0 <= i < SCREEN_SIZE :: r.screen[i] == 0) &&
      (forall i | 0 <= i < RAM_SIZE ::
        r.mem[i] == if FONT_SET_SIZE <= i < PROGRAM_START then 0 else m.mem[i])
  {
  }

  /** Resetting twice is resetting once. */
  lemma {:induction false} ResetIdempotent(m: Machine)
    requires WellFormed(m)
    ensures Reset(Reset(m)) == Reset(m)
  {
    var r := Reset(m);
    var rr := Reset(r);
    assert rr.mem == r.mem;
    assert rr.stack == r.stack;
  }

  /** A freshly loaded machine is already in its reset state. */
  lemma {:induction false} ResetOfLoadedMachine(rom: seq<u8>)
    requires |rom| <= MAX_ROM_SIZE
    ensures WellFormed(InitMachine(rom)) && Reset(InitMachine(rom)) == InitMachine(rom)
  {
    var m := InitMachine(rom);
    var r := Reset(m);
    assert r.mem == m.mem by {
      assert m.mem[..FONT_SET_SIZE] == FONT_SET;
      assert m.mem[PROGRAM_START..] == rom + Zeros(MAX_ROM_SIZE - |rom|);
    }
    assert r.stack == m.stack;
  }

  /**
   * `init_emulator`: the font at address 0, the ROM at `PROGRAM_START`,
   * zero everywhere else; the two regions cannot overlap.
   */
  lemma {:induction false} InitLayout(rom: seq<u8>)
    requires |rom| <= MAX_ROM_SIZE
    ensures var m := InitMachine(rom);
      WellFormed(m) && FONT_SET_SIZE <= PROGRAM_START &&
      m.mem[..FONT_SET_SIZE] == FONT_SET &&
      m.mem[PROGRAM_START..PROGRAM_START + |rom|] == rom &&
      (forall i | FONT_SET_SIZE <= i < PROGRAM_START || PROGRAM_START + |rom| <= i < RAM_SIZE ::
        m.mem[i] == 0) &&
      m.pc == PROGRAM_START && m.sp == 0 && m.draw == 1
  {
    var m := InitMachine(rom);
    assert m.mem[..FONT_SET_SIZE] == FONT_SET;
    assert m.mem[PROGRAM_START..PROGRAM_START + |rom|] == rom;
  }

  /**
   * `reset_emulator` as written clears only the first STACK_SIZE bytes of
   * the two-byte stack entries: entries 8..15 keep their values.
   */
  lemma {:induction false} ResetAsWrittenKeepsUpperStack(m: Machine)
    requires WellFormed(m)
    ensures var r := ResetAsWritten(m);
      |r.stack| == STACK_SIZE &&
      (forall i | 0 <= i < STACK_SIZE / STACK_ENTRY_BYTES :: r.stack[i] == 0) &&
      (forall i | STACK_SIZE / STACK_ENTRY_BYTES <= i < STACK_SIZE :: r.stack[i] == m.stack[i])
  {
  }

  /**
   * The discrepancy: any machine with a non-zero top stack entry (nine
   * nested calls leave one there) is reset differently by the code as
   * written and by a reset that clears the whole stack.
   */
  lemma {:induction false} ResetAsWrittenDiffers(m: Machine)
    requires WellFormed(m) && m.stack[STACK_SIZE - 1] != 0
    ensures ResetAsWritten(m) != Reset(m)
  {
    assert ResetAsWritten(m).stack[STACK_SIZE - 1] != Reset(m).stack[STACK_SIZE - 1];
  }
}
