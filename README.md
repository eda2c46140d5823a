# CHIP-8 interpreter core in Dafny

This project models the core of a CHIP-8 interpreter written in Go and proves
properties of the model. The current package lives under `src/`. The
repository root holds an older snapshot of the same interpreter.

The model covers these parts:

- Memory: a 4096-byte store with a 12-bit bounds check.
- Call stack: 16 slots and a `uint8` stack pointer that starts at 16.
- Registers: the 16 `uint8` registers V0..VF.
- Screen: a 64×32 array and its sprite blit, `Draw`.
- Delay timer.
- CPU: the fetch–decode–execute step and all 34 instruction handlers.
- Legacy snapshot: the older root-level CPU, instructions and memory.

Each part has two layers:

- **Reference semantics** are pure functions on values:
  - `Machine.Machine` is the whole CPU state, with its memory, screen and timer counter.
  - `Handlers` holds one function per instruction handler.
  - `Interpreter.Step` is one iteration of the run loop.
- **Imperative classes** mirror the Go structs and update arrays in place:
  - `MemoryUnit.Memory`
  - `Display.Graphics`
  - `DelayTimer.Timer`
  - `Cpu.CPU`
  - `LegacyCpu.CPU`

  Each method is proved against the reference function. For example, `Cpu.CPU.Step` ensures
  `Outcome(State(), err) == Interpreter.Step(old(State()), host)`.

Go's `uint8`/`uint16` are the subset types `Byte`/`Word`, and every wrap-around is written out.

A Go `error` is `Status = Ok | Fail(tag)`. Go keeps side effects that happen before an error, and so does the model.

A Go runtime panic (an array index out of range) is the error tag `IndexPanic`. The cases are:

- `Pop` at SP = 16;
- Fx55/Fx65 loops that reach V[16];
- the legacy memory with an address ≥ 4096.

The model follows the code as written. These deliberate or accidental quirks are modelled exactly and exhibited by lemmas:

- `Run` adds 2 to PC after every successful handler, including jumps and calls. A jump therefore lands on nnn + 2 (`Interpreter.StepJumpOvershoots`).
- `Decode` never returns `ClearScreen` or `Return`. 00E0 and 00EE fall to `NotImplemented` (`Decoder.ClearAndReturnUnreachable`).
- Dxyn draws at the nibbles x and y themselves, not at Vx and Vy.
  - Draw's column loop runs to n, not 8; columns 8 and up get bit 0.
  - The flag is set whenever a sprite bit differs from the pixel it meets.
- Fx33 stores `V & 10` as the ones digit (`Handlers.SplitDecimalOf137`).
- Fx55/Fx65 loop up to the value of Vx, not up to x.
- `writeSprite` (used by `Init`) writes every row of a glyph to the same address.
- Pop's guard `SP > 16` lets SP = 16 through to `Stack[16]`.
- In the root snapshot:
  - skips add 1 to PC;
  - `Fetch` reads the byte at PC twice;
  - `Decode` only knows families 1–7 and 8xy0–8xy4;
  - `Memory` methods have value receivers, so a `Write` is lost.

## Model

| member | source | states |
|---|---|---|
| Common.CheckInst | src/instructions.go:10-13 | true iff the word lies in the 4096-word block that starts at the expected family value |
| Common.FieldsRebuildWord | src/instructions.go:10-13 | the family nibble, x nibble and low byte put back together give the word; kk = 16·y + n; nnn = 256·x + kk |
| Common.FieldsOfBytes | src/cpu.go:146-164 | the fields of the big-endian word built from two bytes come straight from those bytes |
| MemoryUnit.Load | src/memory.go:22-29 | Read succeeds iff the address is below 4096, giving that byte; otherwise 0 and OutOfBounds |
| MemoryUnit.Store | src/memory.go:11-19 | Write succeeds iff the address is below 4096, sets exactly that byte and keeps every other; otherwise nothing changes and OutOfBounds |
| MemoryUnit.ReadAfterWrite | src/memory.go:11-29 | a successful Write followed by a Read of the same address returns the byte written |
| MemoryUnit.ReadOtherAfterWrite | src/memory.go:11-29 | a Write, successful or not, never changes a Read of another address |
| MemoryUnit.Memory.constructor | main.go:42 | the zero value `Memory{}` holds 4096 zero bytes |
| MemoryUnit.Memory.Write | src/memory.go:11-19 | the array and the error are what Store gives for the old contents |
| MemoryUnit.Memory.Read | src/memory.go:22-29 | the byte and the error are what Load gives; nothing changes |
| CallStack.Empty | src/cpu.go:37-47 | a new CPU's stack has SP = 16, all slots 0 and no contents |
| CallStack.Push | src/cpu.go:283-291 | SP is decremented with uint8 wrap-around; success iff the old SP was 1..16, storing `data` in the slot below; otherwise the slots are unchanged and StackLimit |
| CallStack.Pop | src/cpu.go:294-302 | SP above 16 gives EmptyStack, SP = 16 gives IndexPanic, both changing nothing; otherwise the slot at SP and SP + 1, with contents = [value] + remaining |
| CallStack.PushContents | src/cpu.go:283-291 | a successful push puts the value on top of the previous contents |
| CallStack.PushThenPop | src/cpu.go:283-302 | pop right after a successful push returns the pushed value and restores SP |
| CallStack.PushesFit | src/cpu.go:283-291 | up to SP pushes all succeed and leave the values on top, most recent first |
| CallStack.SeventeenthPushFails | chip8_test.go:43-60 | 16 pushes onto a new stack succeed and fill it; the 17th fails with StackLimit, wraps SP to 255 and keeps the slots |
| Registers.LoadValue | src/instructions.go:138-148 | Vx = kk; other registers kept |
| Registers.AddValue | src/instructions.go:152-162 | Vx = Vx + kk mod 256, VF untouched; other registers kept |
| Registers.LoadReg | src/instructions.go:166-177 | Vx = Vy; other registers kept |
| Registers.Or | src/instructions.go:181-192 | Vx = Vx OR Vy; other registers kept |
| Registers.And | src/instructions.go:196-207 | Vx = Vx AND Vy; other registers kept |
| Registers.Xor | src/instructions.go:211-222 | Vx = Vx XOR Vy; other registers kept |
| Registers.Add | src/instructions.go:226-247 | VF = 1 iff Vx + Vy > 255, and for x ≠ F, Vx + 256·VF equals the true sum; other registers kept |
| Registers.Sub | src/instructions.go:251-270 | for x ≠ F, VF = 1 iff Vx > Vy (strictly); Vx = Vx − Vy mod 256 when y ≠ F, and Vx = Vx − (the new VF) mod 256 when y = F, because VF is written first; the x = F case follows the same order |
| Registers.SubN | src/instructions.go:291-310 | for x ≠ F, VF = 1 iff Vx < Vy; Vx = Vy − Vx mod 256 when y ≠ F, and Vx = (the new VF) − Vx mod 256 when y = F; the x = F case follows the same order |
| Registers.ShiftRight | src/instructions.go:274-287 | for x ≠ F, 2·Vx' + VF = Vx; with x = F the shift clears VF |
| Registers.ShiftLeft | src/instructions.go:314-327 | for x ≠ F, 256·VF + Vx' = 2·Vx; with x = F, VF = 2·(old VF / 128) |
| Registers.TestVectors | src/chip8_test.go:281-769 | the register values the handler tests expect for 8xy4, 8xy5, 8xy7, 8xy6, 8xyE and 7xkk hold |
| DelayTimer.Ticked | src/timer.go:30-38 | one tick lowers a nonzero counter by exactly 1 and leaves 0 at 0 |
| DelayTimer.TicksSettle | src/timer.go:30-38 | after k ticks the counter is max(t − k, 0); it never wraps |
| DelayTimer.FiveTicksReachZero | src/timer.go:30-46 | a timer set to 5 reads 0 after five ticks and stays 0 |
| DelayTimer.Timer.constructor | src/timer.go:18-27 | NewTimer starts the counter at 0 |
| DelayTimer.Timer.Tick | src/timer.go:30-38 | one loop iteration replaces the counter by Ticked of it |
| DelayTimer.Timer.Set | src/timer.go:41-46 | the counter becomes n; nil error |
| DelayTimer.Timer.Get | src/timer.go:49-54 | returns the counter with a nil error and changes nothing |
| Display.Blank | src/graphics.go:22-25 | the zero screen is 64×32 with every pixel 0 |
| Display.SetPixel | src/graphics.go:149 | one pixel replaced, every other kept |
| Display.Bit | src/graphics.go:141 | `(line >> uint8(7 − c)) & 1` is bit c (MSB first) for c < 8 and 0 for c ≥ 8 |
| Display.Flip | src/graphics.go:149 | `v ^ p` for a one-bit p: p = 0 keeps v, p = 1 toggles its lowest bit |
| Display.PaintRow | src/graphics.go:140-150 | the inner loop keeps a 64×32 screen, and a flag already set stays set |
| Display.PaintRows | src/graphics.go:139-151 | the outer loop keeps a 64×32 screen, and a flag already set stays set |
| Display.PaintRowPixels | src/graphics.go:140-150 | for n ≤ 64, each cell of the row span is flipped by its own sprite bit and every other cell is kept |
| Display.PaintRowCarry | src/graphics.go:143-146 | the inner loop's flag ends set iff it was set or some visited sprite bit differs from the pixel it met |
| Display.PaintRowsPixels | src/graphics.go:139-151 | for n ≤ 32, each cell of the window is flipped by its sprite bit and every other cell is kept |
| Display.PaintRowsCarry | src/graphics.go:139-151 | the outer loop's flag ends set iff it was set or some window bit differs from the pixel it met |
| Display.DrawResult | src/graphics.go:120-154 | the sprite reads succeed iff (addr & 0xFFF) + n ≤ 4096; on failure nothing drawn, flag false, OutOfBounds |
| Display.SpriteAt | src/graphics.go:121-135 | the n rows Draw copies are the bytes at (addr & 0xFFF) + i |
| Display.DrawPixels | src/graphics.go:139-151 | for n ≤ 32, each pixel at offsets (dc, dr) < n from (x, y), wrapping, is flipped by bit dc of row dr; every other pixel kept |
| Display.DrawFlag | src/graphics.go:143-146 | the returned flag is true iff some sprite bit differs from the pixel it is drawn onto |
| Display.DrawFlagLit | src/graphics.go:139-151 | on a 0/1 screen, the flag is true iff some visited pixel is 1 after the draw |
| Display.DrawKeepsBinary | src/graphics.go:139-151 | a screen of 0s and 1s stays one, for every n |
| Display.DrawFrame | src/graphics.go:139-151 | every pixel whose column or row offset from (x, y) is at least n is kept, for every n |
| Display.DrawTwiceRestores | src/graphics.go:139-151 | drawing the same sprite at the same place twice restores the screen (n ≤ 32) |
| Display.Graphics.constructor | src/graphics.go:38-47 | NewGraphics: a 64×32 all-zero screen drawing from the given memory |
| Display.Graphics.Draw | src/graphics.go:120-154 | the new screen, flag and error are DrawResult of the memory and the old screen |
| Display.Graphics.PaintSprite | src/graphics.go:139-151 | the nested loops turn the screen and flag into PaintRows of the old screen |
| Display.Graphics.PaintLine | src/graphics.go:140-150 | the column loop turns the screen and flag into PaintRow of the old screen |
| Machine.New | src/cpu.go:37-47 | NewCPU: PC = 0x200, I = 0, SP = 16, zero registers and stack, given memory/screen/timer |
| Machine.Fetch | src/cpu.go:146-164 | succeeds iff PC < 4095, giving mem[PC]·256 + mem[PC + 1]; otherwise 0 and OutOfBounds |
| Machine.FetchFields | src/cpu.go:146-164 | the fetched word's nibbles, kk and nnn come from the two bytes at PC |
| Machine.WriteSpriteFrom | src/cpu.go:101-106 | the loop touches only addr; when addr is in range it ends holding the sprite's last row |
| Machine.InitFrom | src/cpu.go:88-96 | Init's loop from glyph g on keeps every byte below 5g and every byte from 80 up |
| Machine.LoadFrom | src/cpu.go:305-316 | LoadProgram's loop can only fail with OutOfBounds; memory stays 4096 bytes |
| Machine.WriteSpriteEffect | src/cpu.go:101-106 | writeSprite leaves the sprite's LAST row at addr and changes nothing else |
| Machine.InitEffect | src/cpu.go:51-99 | Init leaves at 5g the last row of glyph g, for g = 0..15, and changes no other byte |
| Machine.LoadProgramEffect | src/cpu.go:305-316 | LoadProgram copies the program to 0x200..; it fails with OutOfBounds iff the program is longer than 3584 bytes, keeping the bytes that fit |
| Decoder.Decode | src/cpu.go:167-280 | rejects exactly the unknown 8xy_ and Fx__ selectors; every 0nnn and every unknown Ex__ goes to NotImplemented |
| Decoder.DecodeAccepts | src/cpu.go:167-280 | the handler Decode picks accepts the word under its own guard, and it is never ClearScreen or Return |
| Decoder.DecodeIsTheAcceptingHandler | src/cpu.go:167-280 | every guarded handler other than ClearScreen/Return that accepts a word is the one Decode picks |
| Decoder.ClearAndReturnUnreachable | src/cpu.go:172-180 | 00E0 and 00EE decode to NotImplemented although the ClearScreen and Return guards accept them |
| Handlers.ClearScreen | src/instructions.go:17-31 | guard 00E0; a screen error gives ClearError with nothing changed, otherwise an all-zero screen and nothing else changed |
| Handlers.Jump | src/instructions.go:35-43 | guard 1nnn; PC = inst & 0xFFF and nothing else changes |
| Handlers.Call | src/instructions.go:50-62 | guard 2nnn; with SP in 1..16, the old PC goes to slot SP − 1 and PC = nnn; otherwise only SP moves (wrapping) and StackLimit |
| Handlers.Return | src/instructions.go:66-83 | guard 00EE; SP < 16 pops into PC; SP = 16 gives IndexPanic and SP > 16 EmptyStack, changing nothing |
| Handlers.SkipEqualVal | src/instructions.go:87-100 | guard 3xkk; PC += 2 iff Vx == kk, nothing else changes |
| Handlers.SkipNotEqualVal | src/instructions.go:104-117 | guard 4xkk; PC += 2 iff Vx != kk |
| Handlers.SkipEqualReg | src/instructions.go:121-134 | guard 5xy_ (low nibble not checked); PC += 2 iff Vx == Vy |
| Handlers.SkipNotEqualReg | src/instructions.go:331-346 | guard 9xy_; PC += 2 iff Vx != Vy |
| Handlers.JumpWithReg | src/instructions.go:363-372 | guard Bnnn; PC = nnn + V0 without a mask, nothing else changes |
| Handlers.LoadValue | src/instructions.go:138-148 | guard 6xkk; the registers become Registers.LoadValue |
| Handlers.AddValue | src/instructions.go:152-162 | guard 7xkk; the registers become Registers.AddValue |
| Handlers.LoadReg | src/instructions.go:166-177 | guard 8xy0; the registers become Registers.LoadReg |
| Handlers.Or | src/instructions.go:181-192 | guard 8xy1; Registers.Or |
| Handlers.And | src/instructions.go:196-207 | guard 8xy2; Registers.And |
| Handlers.Xor | src/instructions.go:211-222 | guard 8xy3; Registers.Xor |
| Handlers.Add | src/instructions.go:226-247 | guard 8xy4; Registers.Add |
| Handlers.Sub | src/instructions.go:251-270 | guard 8xy5; Registers.Sub |
| Handlers.ShiftRight | src/instructions.go:274-287 | guard 8xy6; Registers.ShiftRight |
| Handlers.SubN | src/instructions.go:291-310 | guard 8xy7; Registers.SubN |
| Handlers.ShiftLeft | src/instructions.go:314-327 | guard 8xyE; Registers.ShiftLeft |
| Handlers.LoadI | src/instructions.go:350-359 | guard Annn; I = nnn, nothing else changes |
| Handlers.RandomAnd | src/instructions.go:376-389 | guard Cxkk; Vx = kk AND the random byte, nothing else changes |
| Handlers.DrawSprite | src/instructions.go:393-414 | guard Dxyn; draws at the nibbles x, y with n rows from I; a read error changes nothing; otherwise the new screen and VF = the flag |
| Handlers.SkipIfKey | src/instructions.go:418-437 | guard Ex9E; a keypad error gives KeypadError with nothing changed; otherwise PC += 2 iff key Vx is pressed |
| Handlers.SkipIfNotKey | src/instructions.go:441-460 | guard ExA1; as SkipIfKey with the test negated |
| Handlers.WaitForKey | src/instructions.go:464-482 | guard Fx0A; a keypad error gives KeypadError; otherwise Vx = the key, all else kept |
| Handlers.SetRegDT | src/instructions.go:486-502 | guard Fx07; Vx = the timer truncated to uint8, all else kept |
| Handlers.SetDT | src/instructions.go:506-522 | guard Fx15; the timer = Vx, all else kept |
| Handlers.AddIReg | src/instructions.go:526-539 | guard Fx1E; I = I + Vx, minus 65536 when the sum overflows |
| Handlers.SetISprite | src/instructions.go:543-558 | guard Fx29; Vx > 0xF gives InvalidGlyph with nothing changed; otherwise I = 5·Vx |
| Handlers.Digits | src/instructions.go:574-576 | the first two values are decimal digits (below 10) that recombine with d mod 10 to give d, so they are exactly the hundreds and tens digits; the third value is d AND 10 |
| Handlers.SplitDecimal | src/instructions.go:563-583 | guard Fx33; the three values go to I, I+1, I+2 (uint16 sums) where in range, all other bytes kept, always success |
| Handlers.Last | src/instructions.go:598 | the last index the Fx55/Fx65 loops reach before V[16]: min(V[x], 15) |
| Handlers.StoreFrom | src/instructions.go:598-603 | the loop's status is Ok, OutOfBounds or IndexPanic; memory stays 4096 bytes |
| Handlers.StoreFromEffect | src/instructions.go:598-603 | from index k on, every in-range address I + j up to I + Last gets V[j], others kept; status as TransferStatus |
| Handlers.StoreRegs | src/instructions.go:587-606 | guard Fx55; only memory can change |
| Handlers.StoreRegsEffect | src/instructions.go:587-606 | closed form: memory[a] = V[a − I] for I ≤ a ≤ I + Last(V[x]), else kept; OutOfBounds if the range leaves memory, else IndexPanic if V[x] > 15, else Ok |
| Handlers.LoadRegsFrom | src/instructions.go:624-630 | the loop's status is Ok, OutOfBounds or IndexPanic |
| Handlers.LoadRegsFromEffect | src/instructions.go:624-630 | from index k on, each register up to Last is loaded from memory while the address is in range; the first out-of-range one becomes 0; others kept |
| Handlers.LoadRegs | src/instructions.go:610-633 | guard Fx65; only the registers can change |
| Handlers.LoadRegsEffect | src/instructions.go:610-633 | closed form of Fx65 with the same status rule as Fx55 |
| Handlers.NotImplemented | src/instructions.go:636-639 | succeeds and changes nothing |
| Handlers.CallThenReturn | src/instructions.go:50-83 | a successful call followed by a return restores PC and SP; the slot keeps the return address |
| Handlers.CallFromNew | src/chip8_test.go:103-104 | from a new CPU, 2nnn stores 0x200 in Stack[15], SP = 15 and PC = nnn |
| Handlers.JumpWithRegPastMemory | src/chip8_test.go:856-859 | BFEF with V0 = 164 sets PC to 0x1093, past the end of memory |
| Handlers.SetDTThenSetRegDT | src/instructions.go:486-522 | Fx15 then Fx07 copies one register into another through the timer |
| Handlers.SplitDecimalOf137 | src/instructions.go:560-580 | Fx33 on 137 stores 1, 3, 8 (not 7) |
| Handlers.InitGlyphCell | src/cpu.go:51-106 | after Init, the byte at 5g is the last row of glyph g |
| Handlers.InitGlyphFrom | src/cpu.go:88-106 | after Init's loop from any glyph g0 ≤ g, the byte at 5g is the last row of glyph g |
| Handlers.SetISpriteAfterInit | src/instructions.go:543-558 | after Init, Fx29 points I at a byte holding the last row of glyph Vx |
| Handlers.DrawSpriteIgnoresRegisters | src/instructions.go:398-402 | Dxyn's screen and status do not depend on the registers |
| Handlers.DrawSpriteCollision | src/instructions.go:402-411 | after a successful Dxyn, VF = 1 iff some sprite bit differed from the pixel it met |
| Handlers.DrawSpriteTwiceRestores | src/instructions.go:393-414 | running the same Dxyn twice restores the screen |
| Interpreter.Execute | src/cpu.go:167-280 | the chosen handler's guard decides InvalidInstruction; the state stays valid |
| Interpreter.Step | src/cpu.go:109-143 | a failing fetch ends the run with OutOfBounds and nothing changed |
| Interpreter.DispatchNeverInvalid | src/cpu.go:167-280 | the handler Decode picks never fails with InvalidInstruction |
| Interpreter.StepInvalidIffRejected | src/cpu.go:109-143 | a step fails with InvalidInstruction iff Decode rejects the fetched word, and then nothing changes |
| Interpreter.StepAddsTwo | src/cpu.go:140 | a successful step leaves PC two past where the handler left it |
| Interpreter.StepJumpOvershoots | src/cpu.go:109-143 | a step on 1nnn ends at PC = nnn + 2 |
| Interpreter.StepSkipEqualVal | src/cpu.go:109-143 | a step on 3xkk advances PC by 4 when Vx == kk and by 2 otherwise |
| Interpreter.StepClearAndReturnDoNothing | src/cpu.go:109-143 | a step on 00E0 or 00EE only advances PC by 2 |
| Cpu.CPU.constructor | src/cpu.go:37-47 | the objects hold Machine.New of the given memory, screen and timer |
| Cpu.CPU.writeSprite | src/cpu.go:101-106 | the memory becomes WriteSpriteFrom of the old memory; nil error |
| Cpu.CPU.Init | src/cpu.go:51-99 | the memory becomes InitFrom of the old memory, nothing else changes |
| Cpu.CPU.Fetch | src/cpu.go:146-164 | the word and error are Machine.Fetch of memory and PC |
| Cpu.CPU.Push | src/cpu.go:283-291 | the stack and error are CallStack.Push of the old stack |
| Cpu.CPU.Pop | src/cpu.go:294-302 | the stack, value and error are CallStack.Pop of the old stack |
| Cpu.CPU.LoadProgram | src/cpu.go:305-316 | memory and error are LoadFrom of the old memory |
| Cpu.CPU.Step | src/cpu.go:109-143 | the new state and error are Interpreter.Step of the old state |
| Cpu.CPU.Execute | src/cpu.go:167-280 | the new state and error are Interpreter.Execute of the old state |
| Cpu.CPU.Jump | src/instructions.go:35-43 | new state and error = Handlers.Jump of the old state |
| Cpu.CPU.Call | src/instructions.go:50-62 | = Handlers.Call |
| Cpu.CPU.Return | src/instructions.go:66-83 | = Handlers.Return |
| Cpu.CPU.SkipEqualVal | src/instructions.go:87-100 | = Handlers.SkipEqualVal |
| Cpu.CPU.SkipNotEqualVal | src/instructions.go:104-117 | = Handlers.SkipNotEqualVal |
| Cpu.CPU.SkipEqualReg | src/instructions.go:121-134 | = Handlers.SkipEqualReg |
| Cpu.CPU.LoadValue | src/instructions.go:138-148 | = Handlers.LoadValue |
| Cpu.CPU.AddValue | src/instructions.go:152-162 | = Handlers.AddValue |
| Cpu.CPU.LoadReg | src/instructions.go:166-177 | = Handlers.LoadReg |
| Cpu.CPU.Or | src/instructions.go:181-192 | = Handlers.Or |
| Cpu.CPU.And | src/instructions.go:196-207 | = Handlers.And |
| Cpu.CPU.Xor | src/instructions.go:211-222 | = Handlers.Xor |
| Cpu.CPU.Add | src/instructions.go:226-247 | = Handlers.Add |
| Cpu.CPU.Sub | src/instructions.go:251-270 | = Handlers.Sub |
| Cpu.CPU.ShiftRight | src/instructions.go:274-287 | = Handlers.ShiftRight |
| Cpu.CPU.SubN | src/instructions.go:291-310 | = Handlers.SubN |
| Cpu.CPU.ShiftLeft | src/instructions.go:314-327 | = Handlers.ShiftLeft |
| Cpu.CPU.SkipNotEqualReg | src/instructions.go:331-346 | = Handlers.SkipNotEqualReg |
| Cpu.CPU.LoadI | src/instructions.go:350-359 | = Handlers.LoadI |
| Cpu.CPU.JumpWithReg | src/instructions.go:363-372 | = Handlers.JumpWithReg |
| Cpu.CPU.RandomAnd | src/instructions.go:376-389 | = Handlers.RandomAnd with the given random byte |
| Cpu.CPU.DrawSprite | src/instructions.go:393-414 | = Handlers.DrawSprite, through Graphics.Draw |
| Cpu.CPU.SkipIfKey | src/instructions.go:418-437 | = Handlers.SkipIfKey with the given key state |
| Cpu.CPU.SkipIfNotKey | src/instructions.go:441-460 | = Handlers.SkipIfNotKey |
| Cpu.CPU.WaitForKey | src/instructions.go:464-482 | = Handlers.WaitForKey with the given key |
| Cpu.CPU.SetRegDT | src/instructions.go:486-502 | = Handlers.SetRegDT, through Timer.Get |
| Cpu.CPU.SetDT | src/instructions.go:506-522 | = Handlers.SetDT, through Timer.Set |
| Cpu.CPU.AddIReg | src/instructions.go:526-539 | = Handlers.AddIReg |
| Cpu.CPU.SetISprite | src/instructions.go:543-558 | = Handlers.SetISprite |
| Cpu.CPU.SplitDecimal | src/instructions.go:563-583 | = Handlers.SplitDecimal, through three Memory.Writes |
| Cpu.CPU.StoreRegs | src/instructions.go:587-606 | = Handlers.StoreRegs (loop proved against StoreFrom) |
| Cpu.CPU.LoadRegs | src/instructions.go:610-633 | = Handlers.LoadRegs (loop proved against LoadRegsFrom) |
| Cpu.CPU.NotImplemented | src/instructions.go:636-639 | = Handlers.NotImplemented: nothing changes |
| LegacyMemory.Zero | chip8_test.go:12-15 | `Memory{}` holds 4096 zero bytes |
| LegacyMemory.Read | memory.go:12-14 | the byte at an address below 4096 with a nil error; beyond, an index panic |
| LegacyMemory.Write | memory.go:7-10 | the caller's memory is unchanged (value receiver); nil error below 4096, an index panic beyond |
| LegacyMemory.WriteIsLost | memory.go:7-14 | a byte written to zero memory reads back as 0 |
| LegacyMemory.Writes | memory.go:7-10 | a caller's writes all succeed iff every address is below 4096; otherwise an index panic |
| LegacyMemory.WritesChangeNothing | memory.go:7-10 | any sequence of writes leaves the caller's memory as it was |
| LegacyMachine.New | cpu.go:28-35 | PC = 0x200, I = 0, SP = 16, zero registers and stack, a copy of the memory |
| LegacyMachine.Fetch | cpu.go:38-56 | below 4096 the word is mem[PC]·257 (the byte at PC twice); beyond, an index panic |
| LegacyMachine.FetchAgreesIffBytesRepeat | cpu.go:42-53 | this Fetch agrees with the `src/` Fetch exactly when mem[PC + 1] = mem[PC] |
| LegacyMachine.Decode | cpu.go:59-103 | dispatches iff the family is 1..7, or 8 with low nibble ≤ 4 |
| LegacyMachine.DecodeAgreesWithCurrent | cpu.go:59-103 | where it dispatches, it picks the same handler as `src/` Decode, and that handler's guard accepts the word |
| LegacyMachine.UnreachableHandlers | cpu.go:59-103 | 8xy5, 8xy6, 8xy7, 8xyE, 9xy0, Annn and Bnnn are never dispatched |
| LegacyMachine.Jump | instructions.go:13-21 | the guard decides InvalidInstruction |
| LegacyMachine.Call | instructions.go:28-40 | the guard decides InvalidInstruction |
| LegacyMachine.SkipEqualVal | instructions.go:44-57 | guard 3xkk; PC += 1 (uint16) iff Vx == kk |
| LegacyMachine.SkipNotEqualVal | instructions.go:61-74 | guard 4xkk; PC += 1 iff Vx != kk |
| LegacyMachine.SkipEqualReg | instructions.go:78-91 | guard 5xy_; PC += 1 iff Vx == Vy |
| LegacyMachine.SkipNotEqualReg | instructions.go:288-303 | guard 9xy_; PC += 1 iff Vx != Vy |
| LegacyMachine.LoadValue | instructions.go:95-105 | the guard decides InvalidInstruction |
| LegacyMachine.AddValue | instructions.go:109-119 | the guard decides InvalidInstruction |
| LegacyMachine.Arith | instructions.go:124-129 | the 8xy_ guard: success iff the family is 8 and the low nibble matches, and then only the registers change; otherwise InvalidInstruction with nothing changed |
| LegacyMachine.LoadReg | instructions.go:123-134 | the guard decides InvalidInstruction |
| LegacyMachine.Or | instructions.go:138-149 | the guard decides InvalidInstruction |
| LegacyMachine.And | instructions.go:153-164 | the guard decides InvalidInstruction |
| LegacyMachine.Xor | instructions.go:168-179 | the guard decides InvalidInstruction |
| LegacyMachine.Add | instructions.go:183-204 | the guard decides InvalidInstruction |
| LegacyMachine.Sub | instructions.go:208-227 | the guard decides InvalidInstruction |
| LegacyMachine.ShiftRight | instructions.go:231-244 | the guard decides InvalidInstruction |
| LegacyMachine.SubN | instructions.go:248-267 | the guard decides InvalidInstruction |
| LegacyMachine.ShiftLeft | instructions.go:271-284 | the guard decides InvalidInstruction |
| LegacyMachine.LoadI | instructions.go:307-316 | the guard decides InvalidInstruction |
| LegacyMachine.JumpWithReg | instructions.go:320-329 | the guard decides InvalidInstruction |
| LegacyMachine.Execute | instructions.go:13-329 | the named handler's guard decides InvalidInstruction |
| LegacyMachine.HandlersAgreeWithCurrent | instructions.go:13-329 | every handler of the snapshot other than the skips has exactly the effect of its `src/` namesake |
| LegacyMachine.SkipsAdvanceOne | instructions.go:44-74 | a taken skip moves PC by 1 where `src/` moves it by 2; otherwise the effects agree |
| LegacyMachine.SkipFromNew | chip8_test.go:127-156 | from a new CPU with V3 = 10, 33kk succeeds and leaves PC at PCInit + 1 when kk = 10 and at PCInit otherwise; 23FF fails with InvalidInstruction and PC stays at PCInit |
| LegacyMachine.CallFromNew | chip8_test.go:93-125 | from a new CPU, 2nnn stores 0x200 in Stack[15] and jumps to nnn |
| LegacyCpu.CPU.constructor | cpu.go:28-35 | the object holds LegacyMachine.New of the memory |
| LegacyCpu.CPU.Fetch | cpu.go:38-56 | word and error are LegacyMachine.Fetch; nothing changes |
| LegacyCpu.CPU.Push | cpu.go:106-114 | stack and error are CallStack.Push of the old stack |
| LegacyCpu.CPU.Pop | cpu.go:117-125 | stack, value and error are CallStack.Pop of the old stack |
| LegacyCpu.CPU.Jump | instructions.go:13-21 | = LegacyMachine.Jump of the old state |
| LegacyCpu.CPU.Call | instructions.go:28-40 | = LegacyMachine.Call |
| LegacyCpu.CPU.SkipEqualVal | instructions.go:44-57 | = LegacyMachine.SkipEqualVal |
| LegacyCpu.CPU.SkipNotEqualVal | instructions.go:61-74 | = LegacyMachine.SkipNotEqualVal |
| LegacyCpu.CPU.SkipEqualReg | instructions.go:78-91 | = LegacyMachine.SkipEqualReg |
| LegacyCpu.CPU.LoadValue | instructions.go:95-105 | = LegacyMachine.LoadValue |
| LegacyCpu.CPU.AddValue | instructions.go:109-119 | = LegacyMachine.AddValue |
| LegacyCpu.CPU.LoadReg | instructions.go:123-134 | = LegacyMachine.LoadReg |
| LegacyCpu.CPU.Or | instructions.go:138-149 | = LegacyMachine.Or |
| LegacyCpu.CPU.And | instructions.go:153-164 | = LegacyMachine.And |
| LegacyCpu.CPU.Xor | instructions.go:168-179 | = LegacyMachine.Xor |
| LegacyCpu.CPU.Add | instructions.go:183-204 | = LegacyMachine.Add |
| LegacyCpu.CPU.Sub | instructions.go:208-227 | = LegacyMachine.Sub |
| LegacyCpu.CPU.ShiftRight | instructions.go:231-244 | = LegacyMachine.ShiftRight |
| LegacyCpu.CPU.SubN | instructions.go:248-267 | = LegacyMachine.SubN |
| LegacyCpu.CPU.ShiftLeft | instructions.go:271-284 | = LegacyMachine.ShiftLeft |
| LegacyCpu.CPU.SkipNotEqualReg | instructions.go:288-303 | = LegacyMachine.SkipNotEqualReg |
| LegacyCpu.CPU.LoadI | instructions.go:307-316 | = LegacyMachine.LoadI |
| LegacyCpu.CPU.JumpWithReg | instructions.go:320-329 | = LegacyMachine.JumpWithReg |

## Left out

- SDL is not modelled. That covers window creation, `Graphics.Init`, `Graphics.Run`, `PaintSurface`, the event polling in `CPU.Run`, the colours and the scale. These are I/O.
- `CPU.Run` is modelled one iteration at a time (`Interpreter.Step`, `Cpu.CPU.Step`). The loop itself, and its end on a quit event, are not modelled.
- `PaintSurface` is left out of `Step`. It always returns nil.
- The timer's ticker goroutine, its mutex and `Stop` are not modelled.
  - One tick is the discrete step `Timer.Tick`.
  - A tick happening between two instructions is not modelled (concurrency).
- `rand.Seed`/`rand.Int31` are not modelled. RandomAnd takes its random byte as a parameter (`Host.random`).
- The keypad (`Input.IsPressed`, `Input.WaitForKey`) is not modelled. `src/input.go` does not define them with the signatures the CPU uses.
  - Their answers are parameters: `Host.pressed`, `Host.pressError`, `Host.key` and `Host.keyError`.
  - Fx0A's blocking wait is left out.
- `Graphics.ClearScreen` is not in the source shown.
  - Its error is a parameter (`Host.clearError`).
  - Its effect is taken to be an all-zero screen.
- Cpu.CPU has no ClearScreen method. The modelled `Graphics` has no such operation, and `Decode` never dispatches to ClearScreen anyway. The pure `Handlers.ClearScreen` stands for it.
- Display.Graphics.Draw takes non-negative coordinates below 0x7FFF_FF00. As a result, `int32(w + screenw) % 64` never overflows and never has a negative operand. DrawSprite's nibble coordinates always satisfy this.
- Cpu.CPU.constructor requires the screen to draw from the CPU's own memory object. `main.go` wires them that way, and DrawSprite reads sprites from that memory.
- `main.go` is not modelled: flag parsing, `GetFile` and its start-up order. Note that `main.go` never calls `CPU.Init`, so the glyphs are written only where `Init` is called explicitly.
- Error message texts and the `fmt.Printf` debug output are not modelled. Each error is a tag.
- `chip8.go` and `src/input.go` are not part of this model. They are only types and stubs.
- In the root snapshot, `CPU.Memory` and `NewCPU`'s parameter have the `memory` interface type of `chip8.go`. The model fixes the interface's dynamic value to a `Memory` struct value, which is what the tests store there. Its value-receiver `Write` then acts on a copy. Other implementations of `memory` are not modelled.
- The Handlers.StoreRegs and Handlers.LoadRegs contracts state only which part of the state can change. The full effect, memory contents and status, is in Handlers.StoreRegsEffect and Handlers.LoadRegsEffect.
- LegacyMachine.Jump, LegacyMachine.Call and the other non-skip legacy handlers state only their guard behaviour in their own contracts. Their effect is stated once, as equality with the `src/` handlers, in LegacyMachine.HandlersAgreeWithCurrent.
