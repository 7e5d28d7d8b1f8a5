/*
 * The `chip8` record of src/chip8.h as a class, and the functions of
 * src/chip8.c that update it in place.  Every method is proved to leave
 * the record in the state the matching function of module `Semantics`
 * describes.
 */
module Cpu {
  import opened Chip8Defs
  import opened Decoder
  import opened Semantics

  class Chip8 {
    const mem: array<u8>
    const stack: array<u16>
    /** Index register; only its low 12 bits address memory. */
    var I: u16
    /** V0..VF; VF doubles as the carry, borrow, shift and collision flag. */
    const v: array<u8>
    var pc: u16
    var sp: u16
    var currentOp: Opcode
    var delayTimer: u8
    var soundTimer: u8
    /** One byte per pixel, row-major, 0 or 1 when drawn by the machine. */
    const screen: array<u8>
    /** Written by the host: non-zero while a key is down. */
    const keyboard: array<u8>
    var wait: u8
    var exit: u8
    var draw: u8
    var stepCycles: u8
    var debug: u8

    /** The arrays have their declared sizes and do not share storage. */
    ghost predicate Valid() {
      mem.Length == RAM_SIZE && stack.Length == STACK_SIZE && v.Length == NUM_REGISTERS &&
      screen.Length == SCREEN_SIZE && keyboard.Length == NUM_KEYS &&
      mem != v && mem != screen && mem != keyboard &&
      v != screen && v != keyboard && screen != keyboard
    }

    /** The record as a value. */
    ghost function State(): (m: Machine)
      reads this, mem, stack, v, screen, keyboard
      ensures Valid() ==> WellFormed(m)
    {
      Machine(mem[..], stack[..], I, v[..], pc, sp, currentOp, delayTimer, soundTimer,
              screen[..], keyboard[..], wait, exit, draw, stepCycles, debug)
    }

    /**
     * `init_emulator` without its file and clock calls: the ROM bytes are
     * a parameter and are placed at `PROGRAM_START`.
     */
    constructor Init(rom: seq<u8>)
      requires |rom| <= MAX_ROM_SIZE
      ensures Valid() && State() == InitMachine(rom)
      ensures fresh(mem) && fresh(stack) && fresh(v) && fresh(screen) && fresh(keyboard)
    {
      mem := new u8[RAM_SIZE](_ => 0);
      stack := new u16[STACK_SIZE](_ => 0);
      v := new u8[NUM_REGISTERS](_ => 0);
      screen := new u8[SCREEN_SIZE](_ => 0);
      keyboard := new u8[NUM_KEYS](_ => 0);
      pc := PROGRAM_START;
      sp := 0;
      I := 0;
      delayTimer := 0;
      soundTimer := 0;
      exit := 0;
      stepCycles := 0;
      draw := 1;
      wait := 0;
      currentOp := Decode(0, 0);
      debug := 0;
      new;
      assert mem[..] == Zeros(RAM_SIZE);
      LoadImage(mem, rom);
      ghost var r := InitMachine(rom);
      assert stack[..] == r.stack && v[..] == r.v;
      assert screen[..] == r.screen && keyboard[..] == r.keyboard;
    }

    /** `reset_emulator`, clearing the whole stack (see `Semantics.ResetAsWritten`). */
    method Reset()
      requires Valid()
      modifies this, mem, v, keyboard, stack, screen
      ensures Valid() && State() == Semantics.Reset(old(State()))
    {
      ClearArrays();
      pc := PROGRAM_START;
      sp := 0;
      I := 0;
      delayTimer := 0;
      soundTimer := 0;
      exit := 0;
      stepCycles := 0;
      draw := 1;
      wait := 0;
    }

    /** The `memset` calls of `reset_emulator`, with the stack cleared entry by entry. */
    method ClearArrays()
      requires Valid()
      modifies mem, v, keyboard, stack, screen
      ensures var r := Semantics.Reset(old(State()));
        screen[..] == r.screen && mem[..] == r.mem && v[..] == r.v &&
        keyboard[..] == r.keyboard && stack[..] == r.stack
    {
      ghost var r := Semantics.Reset(State());
      ZeroRange(screen, 0, SCREEN_SIZE);
      ZeroRange(mem, FONT_SET_SIZE, PROGRAM_START);
      ZeroRange(v, 0, NUM_REGISTERS);
      ZeroRange(keyboard, 0, NUM_KEYS);
      forall i | 0 <= i < STACK_SIZE {
        stack[i] := 0;
      }
      assert stack[..] == r.stack;
    }

    /** `fetch`: decode the two bytes at `pc` into `currentOp`. */
    method Fetch()
      requires Valid() && pc + 1 < RAM_SIZE
      modifies this`currentOp
      ensures State() == old(State()).(currentOp := FetchOp(old(State())))
    {
      var hi := mem[pc];
      var lo := mem[pc + 1];
      currentOp := Decode(hi, lo);
    }

    /** `adv`: move `pc` on by `steps` instructions, wrapping at 16 bits. */
    method Adv(steps: nat)
      modifies this`pc
      ensures pc == (old(pc) + OP_SIZE * steps) % 0x1_0000
    {
      pc := (pc + OP_SIZE * steps) % 0x1_0000;
    }

    /** `execute`: fetch and run one instruction; an unknown opcode is an error result. */
    method Execute(rnd: u8) returns (r: Result<()>)
      requires Valid() && Defined(State())
      modifies this, mem, stack, v, screen
      ensures Valid()
      ensures var s := Step(old(State()), rnd);
        (r.Ok? <==> s.Ok?) &&
        (s.Ok? ==> State() == s.value) &&
        (s.Err? ==> r.error == s.error && State() == old(State()).(currentOp := FetchOp(old(State()))))
    {
      Fetch();
      r := Dispatch(currentOp, rnd);
    }

    /** The `switch (op)` of `execute`, run on the instruction just fetched. */
    method Dispatch(op: Opcode, rnd: u8) returns (r: Result<()>)
      requires Valid() && op == currentOp && OperandsDefined(State(), op)
      modifies this, mem, stack, v, screen
      ensures Valid()
      ensures var s := Semantics.Execute(old(State()), op, rnd);
        (r.Ok? <==> s.Ok?) &&
        (s.Ok? ==> State() == s.value) &&
        (s.Err? ==> r.error == s.error && State() == old(State()))
    {
      r := Ok(());
      match op.op {
        case 0x0 =>
          r := ExecuteSystem(op);
        case 0x1 | 0x2 | 0xB =>
          ExecuteJump(op);
        case 0x3 | 0x4 | 0x5 | 0x9 =>
          ExecuteSkip(op);
        case 0x6 | 0x7 | 0xA | 0xC =>
          ExecuteLoad(op, rnd);
        case 0x8 =>
          r := ExecuteAlu(op);
        case 0xD =>
          Draw();
        case 0xE =>
          r := ExecuteKeySkip(op);
        case _ =>
          r := ExecuteMisc(op);
      }
    }

    /** The jump and call cases of `execute`. */
    method ExecuteJump(op: Opcode)
      requires Valid() && (op.op == 0x2 ==> sp < STACK_SIZE)
      modifies stack, this`sp, this`pc
      ensures State() == Jump(old(State()), op)
    {
      match op.op {
        case 0x1 =>
          pc := op.addr;
        case 0x2 =>
          Call(op.addr);
        case _ =>
          pc := (op.addr + v[0]) % 0x1_0000;
      }
    }

    /** The register-comparison skips of `execute`. */
    method ExecuteSkip(op: Opcode)
      requires Valid()
      modifies this`pc
      ensures State() == Skip(old(State()), op)
    {
      var vx := v[op.x];
      var vy := v[op.y];
      match op.op {
        case 0x3 =>
          Adv(1 + Flag(vx == op.kk));
        case 0x4 =>
          Adv(1 + Flag(vx != op.kk));
        case 0x5 =>
          Adv(1 + Flag(vx == vy));
        case _ =>
          Adv(1 + Flag(vx != vy));
      }
    }

    /** The register and index loads of `execute`. */
    method ExecuteLoad(op: Opcode, rnd: u8)
      requires Valid()
      modifies v, this`I, this`pc
      ensures State() == Load(old(State()), op, rnd)
    {
      var vx := v[op.x];
      match op.op {
        case 0x6 =>
          SetRegister(op.x, op.kk);
        case 0x7 =>
          SetRegister(op.x, (vx + op.kk) % 0x100);
        case 0xA =>
          I := op.addr;
        case _ =>
          SetRegister(op.x, And8(rnd, op.kk));
      }
      Adv(1);
    }

    /** `2nnn`: `stack[sp++] = pc; pc = addr`. */
    method Call(addr: u16)
      requires Valid() && sp < STACK_SIZE
      modifies stack, this`sp, this`pc
      ensures State() == Semantics.Call(old(State()), addr)
    {
      stack[sp] := pc;
      sp := sp + 1;
      pc := addr;
    }

    /** `v[x] = b`. */
    method SetRegister(x: u4, b: u8)
      requires Valid()
      modifies v
      ensures State() == SetV(old(State()), x, b)
    {
      v[x] := b;
    }

    /** The `0nnn` block of `execute`: clear screen and return. */
    method ExecuteSystem(op: Opcode) returns (r: Result<()>)
      requires Valid() && (op.kk == 0xEE ==> 0 < sp <= STACK_SIZE)
      modifies screen, this`pc, this`sp, this`draw
      ensures var s := System(old(State()), op);
        (r.Ok? <==> s.Ok?) &&
        (s.Ok? ==> State() == s.value) &&
        (s.Err? ==> r.error == s.error && State() == old(State()))
    {
      r := Ok(());
      if op.kk == 0xE0 {
        forall i | 0 <= i < SCREEN_SIZE {
          screen[i] := 0;
        }
        Adv(1);
        draw := 1;
      } else if op.kk == 0xEE {
        sp := sp - 1;
        pc := (stack[sp] + OP_SIZE) % 0x1_0000;
      } else {
        r := Err(UnknownOpcode(op));
      }
    }

    /** The `Exkk` block of `execute`: skip on the state of key Vx. */
    method ExecuteKeySkip(op: Opcode) returns (r: Result<()>)
      requires Valid() && (op.kk == 0x9E || op.kk == 0xA1 ==> v[op.x] < NUM_KEYS)
      modifies this`pc
      ensures var s := KeySkip(old(State()), op);
        (r.Ok? <==> s.Ok?) &&
        (s.Ok? ==> State() == s.value) &&
        (s.Err? ==> r.error == s.error && State() == old(State()))
    {
      var vx := v[op.x];
      r := Ok(());
      if op.kk == 0x9E {
        Adv(1 + keyboard[vx] as int);
      } else if op.kk == 0xA1 {
        Adv(1 + Flag(keyboard[vx] == 0));
      } else {
        r := Err(UnknownOpcode(op));
      }
    }

    /** The `8xyN` block of `execute`. */
    method ExecuteAlu(op: Opcode) returns (r: Result<()>)
      requires Valid()
      modifies v, this`pc
      ensures var s := Alu(old(State()), op);
        (r.Ok? <==> s.Ok?) &&
        (s.Ok? ==> State() == s.value) &&
        (s.Err? ==> r.error == s.error && State() == old(State()))
    {
      r := Ok(());
      match op.n {
        case 0x0 | 0x1 | 0x2 | 0x3 =>
          ExecuteLogic(op);
        case 0x4 | 0x5 | 0x7 =>
          ExecuteArithmetic(op);
        case 0x6 | 0xE =>
          ExecuteShift(op);
        case _ =>
          r := Err(UnknownOpcode(op));
      }
    }

    /** `8xy0` to `8xy3`: copy, or, and, xor; VF is left alone. */
    method ExecuteLogic(op: Opcode)
      requires Valid() && op.n <= 0x3
      modifies v, this`pc
      ensures Alu(old(State()), op).Ok? && State() == Alu(old(State()), op).value
    {
      var vx := v[op.x];
      var vy := v[op.y];
      match op.n {
        case 0x0 =>
          SetRegister(op.x, vy);
        case 0x1 =>
          SetRegister(op.x, Or8(vx, vy));
        case 0x2 =>
          SetRegister(op.x, And8(vx, vy));
        case _ =>
          SetRegister(op.x, Xor8(vx, vy));
      }
      Adv(1);
    }

    /** `8xy4`, `8xy5` and `8xy7`: VF gets the carry or the no-borrow flag, then Vx the result. */
    method ExecuteArithmetic(op: Opcode)
      requires Valid() && op.n in {0x4, 0x5, 0x7}
      modifies v, this`pc
      ensures Alu(old(State()), op).Ok? && State() == Alu(old(State()), op).value
    {
      ghost var m := State();
      var vx: int := v[op.x];
      var vy: int := v[op.y];
      match op.n {
        case 0x4 =>
          var wideSum := vx + vy;
          v[VF_IDX] := Flag(wideSum / 0x100 > 0);
          v[op.x] := wideSum % 0x100;
        case 0x5 =>
          v[VF_IDX] := Flag(vx > vy);
          v[op.x] := (vx - vy) % 0x100;
        case _ =>
          v[VF_IDX] := Flag(vy > vx);
          v[op.x] := (vy - vx) % 0x100;
      }
      Adv(1);
      assert State() == Semantics.Adv(m.(v := v[..]), 1);
    }

    /** `8xy6` and `8xyE`: VF gets the bit shifted out of Vx, then Vx the shifted value (Vy is unused). */
    method ExecuteShift(op: Opcode)
      requires Valid() && op.n in {0x6, 0xE}
      modifies v, this`pc
      ensures Alu(old(State()), op).Ok? && State() == Alu(old(State()), op).value
    {
      ghost var m := State();
      var vx: int := v[op.x];
      if op.n == 0x6 {
        v[VF_IDX] := vx % 2;
        v[op.x] := vx / 2;
      } else {
        v[VF_IDX] := vx / 0x80;
        v[op.x] := (vx * 2) % 0x100;
      }
      Adv(1);
      assert State() == Semantics.Adv(m.(v := v[..]), 1);
    }

    /** The `Fxkk` block of `execute`. */
    method ExecuteMisc(op: Opcode) returns (r: Result<()>)
      requires Valid() && MiscDefined(State(), op)
      modifies mem, v, this`pc, this`I, this`delayTimer, this`soundTimer
      ensures var s := Misc(old(State()), op);
        (r.Ok? <==> s.Ok?) &&
        (s.Ok? ==> State() == s.value) &&
        (s.Err? ==> r.error == s.error && State() == old(State()))
    {
      r := Ok(());
      match op.kk {
        case 0x33 | 0x55 | 0x65 =>
          ExecuteMemoryOp(op);
        case 0x07 | 0x0A | 0x15 | 0x18 | 0x1E | 0x29 =>
          ExecuteRegisterOp(op);
        case _ =>
          r := Err(UnknownOpcode(op));
      }
    }

    /** `Fx07`, `Fx0A`, `Fx15`, `Fx18`, `Fx1E` and `Fx29`: timers, key wait and I. */
    method ExecuteRegisterOp(op: Opcode)
      requires Valid() && op.kk in {0x07, 0x0A, 0x15, 0x18, 0x1E, 0x29}
      modifies v, this`pc, this`I, this`delayTimer, this`soundTimer
      ensures Misc(old(State()), op).Ok? && State() == Misc(old(State()), op).value
    {
      var vx := v[op.x];
      match op.kk {
        case 0x07 =>
          v[op.x] := delayTimer;
          Adv(1);
        case 0x0A =>
          WaitKey(op);
        case 0x15 =>
          delayTimer := vx;
          Adv(1);
        case 0x18 =>
          soundTimer := vx;
          Adv(1);
        case 0x1E =>
          I := (I + vx) % 0x1_0000;
          Adv(1);
        case _ =>
          I := vx * GLYPH_HEIGHT;
          Adv(1);
      }
    }

    /** `Fx33`, `Fx55` and `Fx65`: the instructions that move bytes between memory and registers. */
    method ExecuteMemoryOp(op: Opcode)
      requires Valid() && op.kk in {0x33, 0x55, 0x65} && MiscDefined(State(), op)
      modifies mem, v, this`pc
      ensures Misc(old(State()), op).Ok? && State() == Misc(old(State()), op).value
    {
      match op.kk {
        case 0x33 =>
          StoreBcd(v[op.x]);
          Adv(1);
        case 0x55 =>
          StoreRegisters(op.x);
          Adv(1);
        case _ =>
          LoadRegisters(op.x);
          Adv(1);
      }
    }

    /** `Fx33`: the hundreds, tens and units digits of `b` at I, I+1 and I+2. */
    method StoreBcd(b: u8)
      requires Valid() && I + 2 < RAM_SIZE
      modifies mem
      ensures State() == old(State()).(mem := old(mem[..])[I := b / 100][I + 1 := (b / 10) % 10][I + 2 := b % 10])
    {
      mem[I] := b / 100;
      mem[I + 1] := (b / 10) % 10;
      mem[I + 2] := b % 10;
    }

    /** `memcpy(mem + I, v, x + 1)`. */
    method StoreRegisters(x: u4)
      requires Valid() && I + x < RAM_SIZE
      modifies mem
      ensures State() == StoreRegs(old(State()), x)
    {
      forall i | 0 <= i <= x {
        mem[I + i] := v[i];
      }
      assert mem[..] == old(mem[..I]) + v[..x + 1] + old(mem[I + x + 1..]);
    }

    /** `memcpy(v, mem + I, x + 1)`. */
    method LoadRegisters(x: u4)
      requires Valid() && I + x < RAM_SIZE
      modifies v
      ensures State() == LoadRegs(old(State()), x)
    {
      forall i | 0 <= i <= x {
        v[i] := mem[I + i];
      }
      assert v[..] == mem[I..I + x + 1] + old(v[x + 1..]);
    }

    /** `wait_key`: scan the keys in order and take the first one down. */
    method WaitKey(op: Opcode)
      requires Valid()
      modifies v, this`pc
      ensures State() == Semantics.WaitKey(old(State()), op)
    {
      var i := 0;
      while i < NUM_KEYS
        invariant 0 <= i <= NUM_KEYS
        invariant FirstKey(keyboard[..], i) == FirstKey(keyboard[..], 0)
        invariant v[..] == old(v[..]) && pc == old(pc)
      {
        if keyboard[i] != 0 {
          v[op.x] := i;
          Adv(1);
          break;
        }
        i := i + 1;
      }
    }

    /** `draw`: XOR the sprite at I into the screen, collecting collisions in VF. */
    method Draw()
      requires Valid() && SpriteDefined(State(), currentOp)
      modifies v, screen, this`pc, this`draw
      ensures State() == DrawSprite(old(State()), currentOp)
    {
      ghost var m := State();
      var op := currentOp;
      DrawRows(m, op);
      DrawComplete(m, op);
      draw := 1;
      Adv(1);
    }

    /** The outer loop of `draw`: clear VF, then draw the sprite row by row. */
    method DrawRows(ghost m: Machine, op: Opcode)
      requires Valid() && m == State() && SpriteDefined(m, op)
      modifies v, screen
      ensures screen[..] == DrawnBefore(m, op, op.n * SCREEN_WIDTH)
      ensures v[..] == m.v[VF_IDX := Flag(CollidedBefore(m, op, op.n * SCREEN_WIDTH))]
    {
      var vx := v[op.x] % SCREEN_WIDTH;
      var vy := v[op.y] % SCREEN_HEIGHT;
      v[VF_IDX] := 0;
      DrawStart(m, op);
      var y := 0;
      while y < op.n
        invariant 0 <= y <= op.n
        invariant screen[..] == DrawnBefore(m, op, y * SCREEN_WIDTH)
        invariant v[..] == m.v[VF_IDX := Flag(CollidedBefore(m, op, y * SCREEN_WIDTH))]
      {
        DrawRow(m, op, vx, vy, y);
        y := y + 1;
      }
    }

    /** One pass of the inner loop of `draw`: the eight pixels of sprite row `y`. */
    method DrawRow(ghost m: Machine, op: Opcode, vx: nat, vy: nat, y: nat)
      requires Valid() && WellFormed(m) && SpriteDefined(m, op) && y < op.n
      requires m.mem == mem[..] && m.I == I
      requires vx == m.v[op.x] % SCREEN_WIDTH && vy == m.v[op.y] % SCREEN_HEIGHT
      requires screen[..] == DrawnBefore(m, op, y * SCREEN_WIDTH)
      requires v[..] == m.v[VF_IDX := Flag(CollidedBefore(m, op, y * SCREEN_WIDTH))]
      modifies v, screen
      ensures screen[..] == DrawnBefore(m, op, (y + 1) * SCREEN_WIDTH)
      ensures v[..] == m.v[VF_IDX := Flag(CollidedBefore(m, op, (y + 1) * SCREEN_WIDTH))]
    {
      var pixel := mem[I + y];
      var x := 0;
      while x < 8
        invariant 0 <= x <= 8
        invariant screen[..] == DrawnBefore(m, op, y * SCREEN_WIDTH + x)
        invariant v[..] == m.v[VF_IDX := Flag(CollidedBefore(m, op, y * SCREEN_WIDTH + x))]
      {
        DrawPixel(m, op, vx, vy, y, x, pixel);
        x := x + 1;
      }
      DrawRowGap(m, op, y);
    }

    /** The body of the inner loop of `draw`: pixel `x` of sprite row `y`. */
    method DrawPixel(ghost m: Machine, op: Opcode, vx: nat, vy: nat, y: nat, x: nat, pixel: u8)
      requires Valid() && WellFormed(m) && SpriteDefined(m, op) && y < op.n && x < 8
      requires m.mem == mem[..] && m.I == I && pixel == mem[I + y]
      requires vx == m.v[op.x] % SCREEN_WIDTH && vy == m.v[op.y] % SCREEN_HEIGHT
      requires screen[..] == DrawnBefore(m, op, y * SCREEN_WIDTH + x)
      requires v[..] == m.v[VF_IDX := Flag(CollidedBefore(m, op, y * SCREEN_WIDTH + x))]
      modifies v, screen
      ensures screen[..] == DrawnBefore(m, op, y * SCREEN_WIDTH + x + 1)
      ensures v[..] == m.v[VF_IDX := Flag(CollidedBefore(m, op, y * SCREEN_WIDTH + x + 1))]
    {
      DrawPixelStep(m, op, y, x);
      if SpriteBit(pixel, x) {
        var coord := (y + vy) * SCREEN_WIDTH + x + vx;
        v[VF_IDX] := if v[VF_IDX] != 0 || screen[coord] != 0 then 1 else 0;
        screen[coord] := Flip(screen[coord]);
      }
    }
  }

  // ------------------------------------------------------------------ memset and memcpy

  /** `memset(a + lo, 0, hi - lo)`. */
  method ZeroRange(a: array<u8>, lo: nat, hi: nat)
    requires lo <= hi <= a.Length
    modifies a
    ensures a[..] == old(a[..lo]) + Zeros(hi - lo) + old(a[hi..])
  {
    forall i | lo <= i < hi {
      a[i] := 0;
    }
  }

  /** The two `memcpy` calls of `init_emulator`: the ROM at `PROGRAM_START`, the font at 0. */
  method LoadImage(mem: array<u8>, rom: seq<u8>)
    requires mem.Length == RAM_SIZE && mem[..] == Zeros(RAM_SIZE) && |rom| <= MAX_ROM_SIZE
    modifies mem
    ensures mem[..] == InitMachine(rom).mem
  {
    CopyInto(mem, PROGRAM_START, rom);
    CopyInto(mem, 0, FONT_SET);
  }

  /** `memcpy(a + at, src, |src|)`. */
  method CopyInto(a: array<u8>, at: nat, src: seq<u8>)
    requires at + |src| <= a.Length
    modifies a
    ensures a[..] == old(a[..at]) + src + old(a[at + |src|..])
  {
    forall i | 0 <= i < |src| {
      a[at + i] := src[i];
    }
  }

  // ------------------------------------------------------------------ draw loop

  /** Offset of cell `c` from the wrapped sprite origin of `op`, in row-major cells. */
  function Offset(m: Machine, op: Opcode, c: int): int
    requires WellFormed(m)
  {
    c - (m.v[op.y] % SCREEN_HEIGHT) * SCREEN_WIDTH - m.v[op.x] % SCREEN_WIDTH
  }

  predicate TouchedBy(m: Machine, op: Opcode, c: int)
    requires WellFormed(m) && SpriteDefined(m, op)
  {
    Touched(m.mem, m.I, op.n, m.v[op.x] % SCREEN_WIDTH, m.v[op.y] % SCREEN_HEIGHT, c)
  }

  /** The screen once the sprite pixels before offset `k` have been drawn. */
  function DrawnBefore(m: Machine, op: Opcode, k: int): seq<u8>
    requires WellFormed(m) && SpriteDefined(m, op)
  {
    seq(SCREEN_SIZE, c requires 0 <= c < SCREEN_SIZE =>
      if TouchedBy(m, op, c) && Offset(m, op, c) < k then Flip(m.screen[c]) else m.screen[c])
  }

  /** Some sprite pixel before offset `k` met a set cell. */
  predicate CollidedBefore(m: Machine, op: Opcode, k: int)
    requires WellFormed(m) && SpriteDefined(m, op)
  {
    exists c | 0 <= c < SCREEN_SIZE :: TouchedBy(m, op, c) && Offset(m, op, c) < k && m.screen[c] != 0
  }

  /** Pixel (row, col) of the sprite sits at offset row * 64 + col, and only there. */
  lemma CellOffset(m: Machine, op: Opcode, row: int, col: int, c: int)
    requires WellFormed(m) && 0 <= row && 0 <= col < 8
    ensures var coord := CellIndex(m.v[op.x] % SCREEN_WIDTH, m.v[op.y] % SCREEN_HEIGHT, row, col);
      Offset(m, op, coord) == row * SCREEN_WIDTH + col &&
      (Offset(m, op, c) == row * SCREEN_WIDTH + col <==> c == coord)
    ensures (row * SCREEN_WIDTH + col) / SCREEN_WIDTH == row
    ensures (row * SCREEN_WIDTH + col) % SCREEN_WIDTH == col
  {
  }

  /** Before the first pixel nothing is drawn and nothing has collided. */
  lemma DrawStart(m: Machine, op: Opcode)
    requires WellFormed(m) && SpriteDefined(m, op)
    ensures DrawnBefore(m, op, 0) == m.screen
    ensures !CollidedBefore(m, op, 0)
  {
  }

  /** Drawing pixel (y, x) changes at most its own cell and the collision flag. */
  lemma DrawPixelStep(m: Machine, op: Opcode, y: int, x: int)
    requires WellFormed(m) && SpriteDefined(m, op)
    requires 0 <= y < op.n && 0 <= x < 8
    ensures var k := y * SCREEN_WIDTH + x;
      var coord := CellIndex(m.v[op.x] % SCREEN_WIDTH, m.v[op.y] % SCREEN_HEIGHT, y, x);
      if SpriteBitAt(m.mem, m.I, y, x) then
        0 <= coord < SCREEN_SIZE &&
        DrawnBefore(m, op, k)[coord] == m.screen[coord] &&
        DrawnBefore(m, op, k + 1) == DrawnBefore(m, op, k)[coord := Flip(m.screen[coord])] &&
        (CollidedBefore(m, op, k + 1) <==> CollidedBefore(m, op, k) || m.screen[coord] != 0)
      else
        DrawnBefore(m, op, k + 1) == DrawnBefore(m, op, k) &&
        (CollidedBefore(m, op, k + 1) <==> CollidedBefore(m, op, k))
  {
    var k := y * SCREEN_WIDTH + x;
    var coord := CellIndex(m.v[op.x] % SCREEN_WIDTH, m.v[op.y] % SCREEN_HEIGHT, y, x);
    forall c | 0 <= c < SCREEN_SIZE
      ensures (TouchedBy(m, op, c) && Offset(m, op, c) < k + 1) <==>
              (TouchedBy(m, op, c) && Offset(m, op, c) < k) || (c == coord && SpriteBitAt(m.mem, m.I, y, x))
    {
      CellOffset(m, op, y, x, c);
    }
    if SpriteBitAt(m.mem, m.I, y, x) {
      CellOffset(m, op, y, x, coord);
      if m.screen[coord] != 0 {
        assert TouchedBy(m, op, coord) && Offset(m, op, coord) < k + 1;
      }
    }
  }

  /** Offsets x = 8..63 of a row hold no sprite pixel. */
  lemma DrawRowGap(m: Machine, op: Opcode, y: int)
    requires WellFormed(m) && SpriteDefined(m, op) && 0 <= y
    ensures DrawnBefore(m, op, y * SCREEN_WIDTH + 8) == DrawnBefore(m, op, (y + 1) * SCREEN_WIDTH)
    ensures CollidedBefore(m, op, y * SCREEN_WIDTH + 8) <==> CollidedBefore(m, op, (y + 1) * SCREEN_WIDTH)
  {
    forall c | 0 <= c < SCREEN_SIZE && TouchedBy(m, op, c)
      ensures Offset(m, op, c) < y * SCREEN_WIDTH + 8 <==> Offset(m, op, c) < (y + 1) * SCREEN_WIDTH
    {
      var d := Offset(m, op, c);
      assert d == d / SCREEN_WIDTH * SCREEN_WIDTH + d % SCREEN_WIDTH;
    }
  }

  /** After the last row every touched cell has been drawn. */
  lemma DrawComplete(m: Machine, op: Opcode)
    requires WellFormed(m) && SpriteDefined(m, op)
    ensures DrawSprite(m, op) == m.(
      screen := DrawnBefore(m, op, op.n * SCREEN_WIDTH),
      v := m.v[VF_IDX := Flag(CollidedBefore(m, op, op.n * SCREEN_WIDTH))],
      draw := 1,
      pc := (m.pc + OP_SIZE) % 0x1_0000)
  {
    forall c | 0 <= c < SCREEN_SIZE && TouchedBy(m, op, c)
      ensures Offset(m, op, c) < op.n * SCREEN_WIDTH
    {
      var d := Offset(m, op, c);
      assert d == d / SCREEN_WIDTH * SCREEN_WIDTH + d % SCREEN_WIDTH;
    }
  }
}
