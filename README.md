# CHIP-8 virtual CPU in Dafny

This project models the core of a small CHIP-8 emulator written in C:
- the machine record and constants of `src/chip8.h`;
- the instruction cycle of `src/chip8.c`: `fetch`, `execute` with all its opcodes, `adv`, `draw`, `wait_key`, `reset_emulator`, and the memory, register and font part of `init_emulator`.

Files and modules:

- `chip8_defs.dfy` (module `Chip8Defs`): the constants, the byte and word types, the `opcode` record and the 16-glyph font. `FONT_SET` is written as a table of `Glyph` rows, one glyph per hexadecimal digit.
- `decoder.dfy` (module `Decoder`): `fetch`'s split of the big-endian word at `pc` into the `op`, `addr`, `x`, `y`, `n`, `kk` and `full_op` fields. It is proved lossless and equal to the source's mask-and-shift formulas.
- `semantics.dfy` (module `Semantics`): the `chip8` record as a value (`Machine`) and every instruction as a function on it. `Execute` dispatches on the top nibble. Its cases are gathered into groups (`System`, `Jump`, `Skip`, `Load`, `Alu`, `DrawSprite`, `KeySkip`, `Misc`), following the nested `switch` statements of `execute`. `Step` is one `execute` call: fetch, then dispatch.
- `cpu.dfy` (module `Cpu`): the `chip8` record as class `Chip8`. Its arrays (`mem`, `stack`, `v`, `screen`, `keyboard`) are updated in place, as the source does, by methods with `modifies` clauses and loops with invariants. Every instruction-level method (`Execute`, `Dispatch`, the `Execute*` group methods, `Reset`, `Draw`, `WaitKey`, `Fetch`, `Call`, `SetRegister`, `StoreRegisters`, `LoadRegisters`) ensures that the new `State()` is what the matching `Semantics` function gives for the old one; the helpers below them (`Adv`, `ClearArrays`, `StoreBcd`, `DrawRows`, `DrawRow`, `DrawPixel`, `ZeroRange`, `CopyInto`, `LoadImage`) state their effect on the fields and arrays they change. `draw` is proved pixel by pixel against `DrawnBefore` and `CollidedBefore`, which describe the screen and VF after the first `k` sprite pixels.
- `properties.dfy` (module `Properties`): what the instruction set promises, proved about the functions. This covers carries and borrows, shifts, skips, jumps, call/return, BCD, register store/load, the font, sprite XOR and collision, key wait, unknown opcodes, reset and init.

Instructions whose effect the source leaves undefined are excluded by preconditions (`Defined`, `OperandsDefined`, `SpriteDefined`, `MiscDefined`):
- stack overflow on `2nnn` and underflow on `00EE`;
- `Ex9E`/`ExA1` with Vx above 15;
- `Fx33`, `Fx55` and `Fx65` reaching past the last memory byte;
- a sprite row past memory, or a sprite pixel past the last screen cell;
- an instruction word past the end of memory.

An unknown opcode, where the source prints and calls `exit(EXIT_FAILURE)`, is an `Err(UnknownOpcode(op))` result. The random byte of `Cxkk` is the parameter `rnd`.

## Model

| member | source | states |
|---|---|---|
| Chip8Defs.Glyph | src/chip8.h:27-44 | each hexadecimal digit has a glyph of five rows |
| Chip8Defs.GlyphAddress | src/chip8.c:272-276 | the glyph of digit d starts at d * 5 and lies inside the 80-byte font |
| Chip8Defs.GlyphRowsNarrow | src/chip8.h:28-43 | every glyph row uses only the left four pixels (low nibble zero) |
| Chip8Defs.FontSetShape | src/chip8.h:27-44 | the font has 16 * 5 = 80 bytes, glyph d is bytes d*5 to d*5+4, and every byte has a zero low nibble |
| Decoder.Decode | src/chip8.c:71-81 | the fields recombine to the word: full_op = hi*256 + lo = op*0x1000 + addr, addr = x*0x100 + y*0x10 + n, kk = y*0x10 + n |
| Decoder.DecodeFieldsOfWord | src/chip8.c:73-81 | each field equals the source's mask-and-shift of the 16-bit word: bits 12-15, 0-11, 8-11, 4-7, 0-3 and 0-7 |
| Decoder.EncodeDecode | src/chip8.h:47-63 | decoding loses nothing: both bytes are recovered from the fields |
| Decoder.DecodeInjective | src/chip8.c:73 | distinct byte pairs decode to distinct opcodes |
| Semantics.AndBits | src/chip8.c:167 | a bitwise AND result has no bit outside either operand (also used by `Cxkk`, line 222) |
| Semantics.Flip | src/chip8.c:332 | `^= 1` changes the low bit and keeps the others |
| Semantics.FirstKey | src/chip8.c:340-349 | the result is the lowest pressed key at or above `from`, and None exactly when no key there is down |
| Cpu.Chip8.Init | src/chip8.c:16-43 | the new record is `InitMachine(rom)`: font at 0, ROM at 0x200, other memory, registers, stack, screen and keys zero, pc = 0x200, draw = 1 |
| Cpu.LoadImage | src/chip8.c:18-42 | zeroed memory with the ROM copied to 0x200 and the font to 0 is the `InitMachine` image |
| Cpu.Chip8.Reset | src/chip8.c:48-68 | the new state is `Semantics.Reset` of the old one: the whole stack cleared (see Findings) |
| Cpu.Chip8.ClearArrays | src/chip8.c:50-56 | screen, memory 80..511, V, keys and stack become those of `Semantics.Reset` |
| Cpu.ZeroRange | src/chip8.c:52 | `memset(a + lo, 0, hi - lo)` zeroes exactly [lo, hi) and keeps the rest |
| Cpu.CopyInto | src/chip8.c:40-42 | the copy puts `src` at `at` and keeps every other byte |
| Cpu.Chip8.Fetch | src/chip8.c:71-81 | current_op becomes the decoding of mem[pc], mem[pc+1]; nothing else changes |
| Cpu.Chip8.Adv | src/chip8.c:310-312 | pc moves on by 2 * steps modulo 2^16 |
| Cpu.Chip8.Execute | src/chip8.c:97-307 | one `execute`: the result and new state are those of `Step`; an unknown opcode leaves only current_op changed and returns its error |
| Cpu.Chip8.Dispatch | src/chip8.c:105-305 | the switch on the top nibble reaches the state `Semantics.Execute` gives, or its error |
| Cpu.Chip8.ExecuteSystem | src/chip8.c:106-123 | `00E0` and `00EE` as `Semantics.System`; any other `0kk` is an error with no change |
| Cpu.Chip8.ExecuteJump | src/chip8.c:124-219 | `1nnn`, `2nnn` and `Bnnn` (lines 124-132 and 216-219) as `Semantics.Jump` |
| Cpu.Chip8.Call | src/chip8.c:128-132 | the call pushes pc, increments sp and jumps to nnn |
| Cpu.Chip8.ExecuteSkip | src/chip8.c:133-210 | `3xkk`, `4xkk`, `5xyn` (lines 133-144) and `9xyn` (lines 207-210) as `Semantics.Skip` |
| Cpu.Chip8.ExecuteLoad | src/chip8.c:145-224 | `6xkk`, `7xkk` (lines 145-154), `Annn` (211-215) and `Cxkk` (220-224) as `Semantics.Load` |
| Cpu.Chip8.SetRegister | src/chip8.c:147 | one register write, nothing else |
| Cpu.Chip8.ExecuteAlu | src/chip8.c:155-206 | the `8xyN` group as `Semantics.Alu`; an unlisted N is an error with no change |
| Cpu.Chip8.ExecuteLogic | src/chip8.c:157-205 | `8xy0` to `8xy3` as `Semantics.Alu` |
| Cpu.Chip8.ExecuteArithmetic | src/chip8.c:173-205 | `8xy4`, `8xy5` and `8xy7` as `Semantics.Alu`, VF written before Vx |
| Cpu.Chip8.ExecuteShift | src/chip8.c:185-205 | `8xy6` and `8xyE` as `Semantics.Alu` |
| Cpu.Chip8.ExecuteKeySkip | src/chip8.c:230-245 | `Ex9E` and `ExA1` as `Semantics.KeySkip`; any other `Exkk` is an error with no change |
| Cpu.Chip8.ExecuteMisc | src/chip8.c:246-300 | the `Fxkk` group as `Semantics.Misc`; an unlisted kk is an error with no change |
| Cpu.Chip8.ExecuteRegisterOp | src/chip8.c:248-276 | `Fx07`, `Fx0A`, `Fx15`, `Fx18`, `Fx1E` and `Fx29` as `Semantics.Misc` |
| Cpu.Chip8.ExecuteMemoryOp | src/chip8.c:277-293 | `Fx33`, `Fx55` and `Fx65` as `Semantics.Misc` |
| Cpu.Chip8.StoreBcd | src/chip8.c:279-281 | only mem[I], mem[I+1], mem[I+2] change, to the hundreds, tens and units of the byte |
| Cpu.Chip8.StoreRegisters | src/chip8.c:286 | `memcpy(mem + I, v, x + 1)` as `StoreRegs` |
| Cpu.Chip8.LoadRegisters | src/chip8.c:291 | `memcpy(v, mem + I, x + 1)` as `LoadRegs` |
| Cpu.Chip8.WaitKey | src/chip8.c:340-349 | the scan stores the lowest pressed key in Vx and advances, or changes nothing when no key is down |
| Cpu.Chip8.Draw | src/chip8.c:314-338 | the new state is `DrawSprite` of the old one |
| Cpu.Chip8.DrawRows | src/chip8.c:321-335 | after VF is cleared and all n rows are drawn, screen and VF are those after every sprite pixel |
| Cpu.Chip8.DrawRow | src/chip8.c:327-334 | one row takes screen and VF from offset y*64 to (y+1)*64 |
| Cpu.Chip8.DrawPixel | src/chip8.c:329-333 | one pixel takes screen and VF from offset k to k+1 |
| Cpu.CellOffset | src/chip8.c:330 | pixel (row, col) lands at offset row*64 + col from the origin, and only that cell does |
| Cpu.DrawStart | src/chip8.c:324 | before the first pixel the screen is unchanged and no collision has happened |
| Cpu.DrawPixelStep | src/chip8.c:329-333 | a set sprite bit flips exactly its cell and ORs the cell into the collision; a clear bit changes nothing |
| Cpu.DrawRowGap | src/chip8.c:326-328 | no pixel sits at offsets y*64+8 to (y+1)*64, so the next row starts where the last one stopped |
| Cpu.DrawComplete | src/chip8.c:326-337 | after n rows the state is `DrawSprite`: every touched cell is drawn, VF set, draw = 1 and pc advanced |
| Properties.StepRecordsFetchedOp | src/chip8.c:73-99 | a successful step records the fetched instruction, whose word is mem[pc]*256 + mem[pc+1] |
| Properties.ExecuteKeepsOp | src/chip8.c:99 | no instruction changes current_op |
| Properties.AddSetsCarry | src/chip8.c:173-179 | Vx = (Vx + Vy) mod 256; VF = 1 iff the sum exceeds 255, and VF*256 + Vx is the sum; other registers kept |
| Properties.SubSetsNotBorrow | src/chip8.c:180-184 | (Vx' + Vy) mod 256 = Vx; VF = 1 iff Vx > Vy (strict); other registers kept |
| Properties.SubnSetsNotBorrow | src/chip8.c:190-194 | (Vx' + Vx) mod 256 = Vy; VF = 1 iff Vy > Vx (strict); other registers kept |
| Properties.ShiftRightKeepsOutBit | src/chip8.c:185-189 | Vx' = Vx / 2, and for x other than F, Vx' * 2 + VF = Vx: VF is the bit shifted out; for x = F the shifted value overwrites the flag |
| Properties.ShiftLeftKeepsOutBit | src/chip8.c:195-199 | Vx' = (Vx * 2) mod 256, and for x other than F, VF * 256 + Vx' = Vx * 2: VF is the bit shifted out; for x = F the shifted value overwrites the flag |
| Properties.ShiftIgnoresVy | src/chip8.c:185-199 | the shifts do not read Vy: changing Vy changes nothing else in the result |
| Properties.AddImmediateKeepsFlag | src/chip8.c:150-154 | `7xkk` adds modulo 256 and leaves every other register, VF included, unchanged |
| Properties.AndMasks | src/chip8.c:222 | `r & kk` has no bit outside kk |
| Properties.RandomByteMasked | src/chip8.c:220-224 | `Cxkk` writes only Vx, with no bit outside kk, and advances |
| Properties.SkipAdvancesTwoOrOne | src/chip8.c:133-239 | each skip advances pc by two instructions when its condition holds and by one otherwise, and changes nothing else |
| Properties.StraightLineAdvancesOne | src/chip8.c:108-293 | every successful instruction that is not a jump, call, return, skip or key wait advances pc by exactly one instruction |
| Properties.JumpsReplacePc | src/chip8.c:124-219 | `1nnn` sets pc = nnn and `Bnnn` sets pc = nnn + V0; nothing else changes |
| Properties.CallThenReturn | src/chip8.c:114-132 | a call then a return resumes after the call, with sp restored and the return address left in the stack slot |
| Properties.BcdDigits | src/chip8.c:277-283 | the three stored bytes are decimal digits whose value 100a + 10b + c is Vx; no other memory changes |
| Properties.StoreRegistersFrame | src/chip8.c:284-288 | mem[I+i] = Vi for i <= x, all other memory kept |
| Properties.LoadRegistersFrame | src/chip8.c:289-293 | Vi = mem[I+i] for i <= x, registers above x kept |
| Properties.FGroupIsMisc | src/chip8.c:246-300 | every `Fxkk` instruction is the `Misc` group |
| Properties.LoadAfterStore | src/chip8.c:286-291 | loading V0..Vy right after storing V0..Vx (y <= x) gives back the registers |
| Properties.StoreThenLoadRestores | src/chip8.c:284-293 | `Fx55` then `Fy65` (y <= x) keeps the registers and I, advances by two, and touches only the stored bytes |
| Properties.DelayTimerRoundTrip | src/chip8.c:248-261 | `Fx15` then `Fy07` sets the timer to Vx and reads it back into Vy |
| Properties.GlyphForDigit | src/chip8.c:272-276 | with the font loaded, `Fx29` points I at the five rows of digit Vx; only I and pc change |
| Properties.TouchedIffReached | src/chip8.c:326-333 | a cell is toggled by the model exactly when the source's coordinate formula maps a set sprite bit onto it |
| Properties.TouchedIffReachedAll | src/chip8.c:326-333 | the same, for every cell of the screen |
| Properties.DrawCollision | src/chip8.c:324-331 | VF = 1 iff a set sprite bit lands on a set cell, and VF = 0 otherwise |
| Properties.DrawToggles | src/chip8.c:326-337 | reached cells are flipped, all others kept; only VF, screen, draw and pc change |
| Properties.DrawOriginWraps | src/chip8.c:321-322 | the origin is taken modulo the screen: Vx and Vx + 64k draw the same picture |
| Properties.DrawKeepsOperands | src/chip8.c:314-338 | a draw leaves memory, I and both coordinates as they were |
| Properties.DrawTwiceRestores | src/chip8.c:329-332 | drawing the same sprite twice restores the screen |
| Properties.RedrawMeetsBit | src/chip8.c:331 | after a collision-free draw, redrawing collides on any set sprite bit |
| Properties.RedrawCollides | src/chip8.c:329-332 | after a collision-free draw, redrawing collides iff the sprite has a set bit |
| Properties.WaitKeyIdle | src/chip8.c:253-349 | with no key down `Fx0A` changes nothing, pc included, so it runs again |
| Properties.WaitKeyTakesLowest | src/chip8.c:340-349 | the lowest pressed key goes into Vx and pc advances by one instruction |
| Properties.UnknownIffUnlisted | src/chip8.c:118-297 | execution fails exactly on the opcodes missing from the instruction table, with that opcode as the error |
| Properties.ClearScreenBlanks | src/chip8.c:108-113 | `00E0` zeroes every cell, raises draw and advances; nothing else changes |
| Properties.ResetEffects | src/chip8.c:48-68 | after reset: pc = 0x200, sp = I = 0, draw = 1, V, keys, stack and screen zero, memory 80..511 zero and all other memory kept |
| Properties.ResetIdempotent | src/chip8.c:48-68 | resetting twice is resetting once |
| Properties.ResetOfLoadedMachine | src/chip8.c:16-68 | resetting a freshly initialised machine changes nothing |
| Properties.InitLayout | src/chip8.c:16-43 | after init: font at 0..79, ROM at 0x200, all other memory zero, pc = 0x200, sp = 0, draw = 1 |
| Properties.ResetAsWrittenKeepsUpperStack | src/chip8.c:56 | the reset as written zeroes stack entries 0..7 and keeps entries 8..15 |
| Properties.ResetAsWrittenDiffers | src/chip8.c:56 | the reset as written differs from the intended one whenever the last stack entry is non-zero |

## Left out

- Files, the clock and randomness. `fread` of the ROM, `file_size`, `srandom(time(0))` and `random()` are not modelled. The ROM bytes and the random byte of `Cxkk` are parameters.
- Output and exit. The `printf` calls in `fetch` (debug trace) and in the unknown-opcode cases are left out. The `exit(EXIT_FAILURE)` in those cases becomes an `Err` result.
- The rest of the program: `src/gfx.c`, `src/main.c` and its event loop. This includes:
  - the timer decrement every nine cycles;
  - the pause and quit flags;
  - key events, which are the only writers of `keyboard`.
  The record's `wait`, `exit`, `step_cycles` and `debug` fields are carried but only set by init and reset.
- Undefined behaviour becomes preconditions. Out-of-range array indices are not modelled; the instructions that could cause them are excluded, as listed above. `Cpu.Chip8.Init` requires the ROM to fit above 0x200, which `fread` into the fixed array needs.
- `Semantics.InitMachine`: `init_emulator` leaves `current_op` unset. The model uses the decoding of 0000, and sets `debug` to 0 as the caller does right after (src/main.c:35).
- `Semantics.KeySkip`: `Ex9E` advances by `1 + keyboard[Vx]` exactly as written. `Properties.SkipAdvancesTwoOrOne` assumes key bytes are 0 or 1, which is all src/main.c writes.
- `Semantics.DrawSprite`: the sprite is not clipped or wrapped at the right edge, as in the source. A pixel past column 63 lands at the start of the next row, and one past the last row is excluded by `SpriteDefined`.
- The index register is 16 bits. `Fx1E` wraps it at 16 bits. The "only first 12 bits used" comment on `I` is not enforced by the source, and neither is it here.
- Flag semantics follow the code, not descriptions of the instruction set that use `>=`. `8xy5` and `8xy7` set VF = 1 only on a strict `>`: equal operands give VF = 0.
- Group methods. `execute` is one `switch`. The class proves it through one method per group of cases (`ExecuteSystem`, `ExecuteJump`, ...), each matching a group function of `Semantics`. The behaviour is the same single dispatch.

## Findings

| source | as written | input that shows it | evidently intended | confidence | as-written member | corrected member |
|---|---|---|---|---|---|---|
| src/chip8.c:56 (also src/chip8.c:21) | `memset(stack, 0, STACK_SIZE)` clears 16 bytes, which is only stack entries 0..7 of the 16 `uint16_t` entries | a reset with stack[15] = 0x0234 leaves stack[15] = 0x0234 | clear all 16 entries (`sizeof(stack)` bytes) | high; not executed | Semantics.ResetAsWritten, Properties.ResetAsWrittenKeepsUpperStack, Properties.ResetAsWrittenDiffers | Semantics.Reset, Properties.ResetEffects, Cpu.Chip8.Reset |

The rest of the model uses the corrected reset. The same `memset` appears in `init_emulator` (src/chip8.c:21), where it leaves stack entries 8..15 of the uninitialised local `chip8 ctx` (src/main.c:33) unset. `Cpu.Chip8.Init` allocates a zeroed stack instead. The stack is only read after a `2nnn` has written the entry, so a running program cannot observe either difference.
