/** The instruction handlers of `src/instructions.go` as functions on the
    machine state: each takes the state before the handler and the instruction
    word, and gives the state after it with the error it returns.

    Every handler opens with its guard (`CheckInst` on the family nibble and,
    for the shared families, a test of the low nibble or low byte); a word the
    guard refuses gives `InvalidInstruction` and changes nothing. The calls
    into code outside the model (`rand`, the keypad, `Graphics.ClearScreen`)
    take their results from a `Host` value. */
module Handlers {
  import opened Common
  import MemoryUnit
  import CallStack
  import Registers
  import Display
  import DelayTimer
  import D = Decoder
  import opened Machine

  /** What the world outside the model answers: the byte `rand.Int31` gives
      after truncation to `uint8`, the set of pressed keys and whether asking
      for it fails, the key `WaitForKey` returns and whether that fails, and
      whether clearing the screen fails. */
  datatype Host = Host(
    random: Byte,
    pressed: set<Byte>,
    pressError: bool,
    key: Byte,
    keyError: bool,
    clearError: bool)

  /** The handler's "received invalid ... instruction" error. */
  function Invalid(m: Machine): Outcome
  {
    Outcome(m, Fail(InvalidInstruction))
  }

  /** The guard of handler `op` decides the error: a word it refuses gives
      InvalidInstruction with nothing changed, and a word it accepts never does. */
  ghost predicate Guarded(op: D.Op, inst: Word, m: Machine, r: Outcome)
  {
    (!D.Accepts(op, inst) ==> r == Invalid(m)) &&
    (D.Accepts(op, inst) ==> r.status != Fail(InvalidInstruction))
  }

  /** `c.PC += 2`, wrapping as a `uint16`. */
  function Skip(m: Machine): Machine
  {
    m.(pc := AddWord(m.pc, 2))
  }

  // ------------------------------------------------------------ control flow

  /** 00E0: clear the screen to the zero value, or return the error the
      screen reported. */
  function ClearScreen(m: Machine, inst: Word, host: Host): (r: Outcome)
    requires m.Valid()
    ensures Guarded(D.ClearScreen, inst, m, r) && r.m.Valid()
    ensures D.Accepts(D.ClearScreen, inst) && host.clearError ==> r == Outcome(m, Fail(ClearError))
    ensures D.Accepts(D.ClearScreen, inst) && !host.clearError ==>
              r.status == Ok && r.m == m.(screen := r.m.screen) &&
              forall c, k :: 0 <= c < Display.Width && 0 <= k < Display.Height ==> r.m.screen[c][k] == 0
  {
    if !CheckInst(inst, 0x0000) || KK(inst) != 0xE0 then Invalid(m)
    else if host.clearError then Outcome(m, Fail(ClearError))
    else Outcome(m.(screen := Display.Blank()), Ok)
  }

  /** 1nnn: PC becomes the 12-bit address; nothing else changes. */
  function Jump(m: Machine, inst: Word): (r: Outcome)
    requires m.Valid()
    ensures Guarded(D.Jump, inst, m, r) && r.m.Valid()
    ensures D.Accepts(D.Jump, inst) ==>
              r.status == Ok && r.m.pc == inst % 0x1000 && r.m == m.(pc := r.m.pc)
  {
    if !CheckInst(inst, 0x1000) then Invalid(m)
    else Outcome(m.(pc := NNN(inst)), Ok)
  }

  /** 2nnn: push PC, then jump to nnn. A failed push returns its error with the
      stack pointer already moved and PC unchanged. */
  function Call(m: Machine, inst: Word): (r: Outcome)
    requires m.Valid()
    ensures Guarded(D.Call, inst, m, r) && r.m.Valid()
    ensures D.Accepts(D.Call, inst) && 1 <= m.stack.sp <= CallStack.Depth ==>
              r.status == Ok && r.m.pc == inst % 0x1000 &&
              r.m.stack == CallStack.Stack(m.stack.sp - 1, m.stack.slots[m.stack.sp - 1 := m.pc]) &&
              r.m == m.(pc := r.m.pc, stack := r.m.stack)
    ensures D.Accepts(D.Call, inst) && !(1 <= m.stack.sp <= CallStack.Depth) ==>
              r == Outcome(m.(stack := m.stack.(sp := (m.stack.sp - 1) % 256)), Fail(StackLimit))
  {
    if !CheckInst(inst, 0x2000) then Invalid(m)
    else
      var (s, err) := CallStack.Push(m.stack, m.pc);
      if err != Ok then Outcome(m.(stack := s), err)
      else Outcome(m.(pc := NNN(inst), stack := s), Ok)
  }

  /** 00EE: pop the return address into PC. An empty stack (SP above 16) and
      the initial SP = 16, whose slot `Stack[16]` does not exist, are errors
      that change nothing. */
  function Return(m: Machine, inst: Word): (r: Outcome)
    requires m.Valid()
    ensures Guarded(D.Return, inst, m, r) && r.m.Valid()
    ensures D.Accepts(D.Return, inst) && m.stack.sp < CallStack.SPInit ==>
              r.status == Ok && r.m.pc == m.stack.slots[m.stack.sp] &&
              r.m == m.(pc := r.m.pc, stack := m.stack.(sp := m.stack.sp + 1))
    ensures D.Accepts(D.Return, inst) && m.stack.sp == CallStack.SPInit ==> r == Outcome(m, Fail(IndexPanic))
    ensures D.Accepts(D.Return, inst) && m.stack.sp > CallStack.SPInit ==> r == Outcome(m, Fail(EmptyStack))
  {
    if !CheckInst(inst, 0x0000) || KK(inst) != 0xEE then Invalid(m)
    else
      var (s, addr, err) := CallStack.Pop(m.stack);
      if err != Ok then Outcome(m.(stack := s), err)
      else Outcome(m.(pc := addr, stack := s), Ok)
  }

  /** 3xkk: skip the next instruction (PC += 2) iff Vx == kk. */
  function SkipEqualVal(m: Machine, inst: Word): (r: Outcome)
    requires m.Valid()
    ensures Guarded(D.SkipEqualVal, inst, m, r) && r.m.Valid()
    ensures D.Accepts(D.SkipEqualVal, inst) ==>
              r.status == Ok && r.m == if m.v[X(inst)] == KK(inst) then Skip(m) else m
  {
    if !CheckInst(inst, 0x3000) then Invalid(m)
    else if m.v[X(inst)] == KK(inst) then Outcome(Skip(m), Ok)
    else Outcome(m, Ok)
  }

  /** 4xkk: skip the next instruction iff Vx != kk. */
  function SkipNotEqualVal(m: Machine, inst: Word): (r: Outcome)
    requires m.Valid()
    ensures Guarded(D.SkipNotEqualVal, inst, m, r) && r.m.Valid()
    ensures D.Accepts(D.SkipNotEqualVal, inst) ==>
              r.status == Ok && r.m == if m.v[X(inst)] != KK(inst) then Skip(m) else m
  {
    if !CheckInst(inst, 0x4000) then Invalid(m)
    else if m.v[X(inst)] != KK(inst) then Outcome(Skip(m), Ok)
    else Outcome(m, Ok)
  }

  /** 5xy0: skip the next instruction iff Vx == Vy; the low nibble is not checked. */
  function SkipEqualReg(m: Machine, inst: Word): (r: Outcome)
    requires m.Valid()
    ensures Guarded(D.SkipEqualReg, inst, m, r) && r.m.Valid()
    ensures D.Accepts(D.SkipEqualReg, inst) ==>
              r.status == Ok && r.m == if m.v[X(inst)] == m.v[Y(inst)] then Skip(m) else m
  {
    if !CheckInst(inst, 0x5000) then Invalid(m)
    else if m.v[X(inst)] == m.v[Y(inst)] then Outcome(Skip(m), Ok)
    else Outcome(m, Ok)
  }

  /** 9xy0: skip the next instruction iff Vx != Vy; the low nibble is not checked. */
  function SkipNotEqualReg(m: Machine, inst: Word): (r: Outcome)
    requires m.Valid()
    ensures Guarded(D.SkipNotEqualReg, inst, m, r) && r.m.Valid()
    ensures D.Accepts(D.SkipNotEqualReg, inst) ==>
              r.status == Ok && r.m == if m.v[X(inst)] != m.v[Y(inst)] then Skip(m) else m
  {
    if !CheckInst(inst, 0x9000) then Invalid(m)
    else if m.v[X(inst)] != m.v[Y(inst)] then Outcome(Skip(m), Ok)
    else Outcome(m, Ok)
  }

  /** Bnnn: PC = nnn + V0, with no 12-bit mask, so the target may lie past 0xFFF. */
  function JumpWithReg(m: Machine, inst: Word): (r: Outcome)
    requires m.Valid()
    ensures Guarded(D.JumpWithReg, inst, m, r) && r.m.Valid()
    ensures D.Accepts(D.JumpWithReg, inst) ==>
              r.status == Ok && r.m.pc == inst % 0x1000 + m.v[0] && r.m == m.(pc := r.m.pc)
  {
    if !CheckInst(inst, 0xB000) then Invalid(m)
    else Outcome(m.(pc := AddWord(NNN(inst), m.v[0])), Ok)
  }

  // --------------------------------------------------------- register transfers

  /** 6xkk. */
  function LoadValue(m: Machine, inst: Word): (r: Outcome)
    requires m.Valid()
    ensures Guarded(D.LoadValue, inst, m, r) && r.m.Valid()
    ensures D.Accepts(D.LoadValue, inst) ==>
              r == Outcome(m.(v := Registers.LoadValue(m.v, X(inst), KK(inst))), Ok)
  {
    if !CheckInst(inst, 0x6000) then Invalid(m)
    else Outcome(m.(v := Registers.LoadValue(m.v, X(inst), KK(inst))), Ok)
  }

  /** 7xkk. */
  function AddValue(m: Machine, inst: Word): (r: Outcome)
    requires m.Valid()
    ensures Guarded(D.AddValue, inst, m, r) && r.m.Valid()
    ensures D.Accepts(D.AddValue, inst) ==>
              r == Outcome(m.(v := Registers.AddValue(m.v, X(inst), KK(inst))), Ok)
  {
    if !CheckInst(inst, 0x7000) then Invalid(m)
    else Outcome(m.(v := Registers.AddValue(m.v, X(inst), KK(inst))), Ok)
  }

  /** 8xy0: Vx = Vy. */
  function LoadReg(m: Machine, inst: Word): (r: Outcome)
    requires m.Valid()
    ensures Guarded(D.LoadReg, inst, m, r) && r.m.Valid()
    ensures D.Accepts(D.LoadReg, inst) ==> r == Outcome(m.(v := Registers.LoadReg(m.v, X(inst), Y(inst))), Ok)
  {
    if !CheckInst(inst, 0x8000) || N(inst) != 0x0 then Invalid(m)
    else Outcome(m.(v := Registers.LoadReg(m.v, X(inst), Y(inst))), Ok)
  }

  /** 8xy1: Vx = Vx OR Vy. */
  function Or(m: Machine, inst: Word): (r: Outcome)
    requires m.Valid()
    ensures Guarded(D.Or, inst, m, r) && r.m.Valid()
    ensures D.Accepts(D.Or, inst) ==> r == Outcome(m.(v := Registers.Or(m.v, X(inst), Y(inst))), Ok)
  {
    if !CheckInst(inst, 0x8000) || N(inst) != 0x1 then Invalid(m)
    else Outcome(m.(v := Registers.Or(m.v, X(inst), Y(inst))), Ok)
  }

  /** 8xy2: Vx = Vx AND Vy. */
  function And(m: Machine, inst: Word): (r: Outcome)
    requires m.Valid()
    ensures Guarded(D.And, inst, m, r) && r.m.Valid()
    ensures D.Accepts(D.And, inst) ==> r == Outcome(m.(v := Registers.And(m.v, X(inst), Y(inst))), Ok)
  {
    if !CheckInst(inst, 0x8000) || N(inst) != 0x2 then Invalid(m)
    else Outcome(m.(v := Registers.And(m.v, X(inst), Y(inst))), Ok)
  }

  /** 8xy3: Vx = Vx XOR Vy. */
  function Xor(m: Machine, inst: Word): (r: Outcome)
    requires m.Valid()
    ensures Guarded(D.Xor, inst, m, r) && r.m.Valid()
    ensures D.Accepts(D.Xor, inst) ==> r == Outcome(m.(v := Registers.Xor(m.v, X(inst), Y(inst))), Ok)
  {
    if !CheckInst(inst, 0x8000) || N(inst) != 0x3 then Invalid(m)
    else Outcome(m.(v := Registers.Xor(m.v, X(inst), Y(inst))), Ok)
  }

  /** 8xy4: Vx = Vx + Vy with VF = carry. */
  function Add(m: Machine, inst: Word): (r: Outcome)
    requires m.Valid()
    ensures Guarded(D.Add, inst, m, r) && r.m.Valid()
    ensures D.Accepts(D.Add, inst) ==> r == Outcome(m.(v := Registers.Add(m.v, X(inst), Y(inst))), Ok)
  {
    if !CheckInst(inst, 0x8000) || N(inst) != 0x4 then Invalid(m)
    else Outcome(m.(v := Registers.Add(m.v, X(inst), Y(inst))), Ok)
  }

  /** 8xy5: Vx = Vx - Vy with VF = Vx > Vy. */
  function Sub(m: Machine, inst: Word): (r: Outcome)
    requires m.Valid()
    ensures Guarded(D.Sub, inst, m, r) && r.m.Valid()
    ensures D.Accepts(D.Sub, inst) ==> r == Outcome(m.(v := Registers.Sub(m.v, X(inst), Y(inst))), Ok)
  {
    if !CheckInst(inst, 0x8000) || N(inst) != 0x5 then Invalid(m)
    else Outcome(m.(v := Registers.Sub(m.v, X(inst), Y(inst))), Ok)
  }

  /** 8xy6: Vx >>= 1 with VF = the bit shifted out. */
  function ShiftRight(m: Machine, inst: Word): (r: Outcome)
    requires m.Valid()
    ensures Guarded(D.ShiftRight, inst, m, r) && r.m.Valid()
    ensures D.Accepts(D.ShiftRight, inst) ==> r == Outcome(m.(v := Registers.ShiftRight(m.v, X(inst))), Ok)
  {
    if !CheckInst(inst, 0x8000) || N(inst) != 0x6 then Invalid(m)
    else Outcome(m.(v := Registers.ShiftRight(m.v, X(inst))), Ok)
  }

  /** 8xy7: Vx = Vy - Vx with VF = Vx < Vy. */
  function SubN(m: Machine, inst: Word): (r: Outcome)
    requires m.Valid()
    ensures Guarded(D.SubN, inst, m, r) && r.m.Valid()
    ensures D.Accepts(D.SubN, inst) ==> r == Outcome(m.(v := Registers.SubN(m.v, X(inst), Y(inst))), Ok)
  {
    if !CheckInst(inst, 0x8000) || N(inst) != 0x7 then Invalid(m)
    else Outcome(m.(v := Registers.SubN(m.v, X(inst), Y(inst))), Ok)
  }

  /** 8xyE: Vx <<= 1 with VF = the bit shifted out. */
  function ShiftLeft(m: Machine, inst: Word): (r: Outcome)
    requires m.Valid()
    ensures Guarded(D.ShiftLeft, inst, m, r) && r.m.Valid()
    ensures D.Accepts(D.ShiftLeft, inst) ==> r == Outcome(m.(v := Registers.ShiftLeft(m.v, X(inst))), Ok)
  {
    if !CheckInst(inst, 0x8000) || N(inst) != 0xE then Invalid(m)
    else Outcome(m.(v := Registers.ShiftLeft(m.v, X(inst))), Ok)
  }

  /** Annn: I = nnn. */
  function LoadI(m: Machine, inst: Word): (r: Outcome)
    requires m.Valid()
    ensures Guarded(D.LoadI, inst, m, r) && r.m.Valid()
    ensures D.Accepts(D.LoadI, inst) ==> r.status == Ok && r.m.i == inst % 0x1000 && r.m == m.(i := r.m.i)
  {
    if !CheckInst(inst, 0xA000) then Invalid(m)
    else Outcome(m.(i := NNN(inst)), Ok)
  }

  /** Cxkk: Vx = kk AND a random byte. */
  function RandomAnd(m: Machine, inst: Word, host: Host): (r: Outcome)
    requires m.Valid()
    ensures Guarded(D.RandomAnd, inst, m, r) && r.m.Valid()
    ensures D.Accepts(D.RandomAnd, inst) ==>
              r.status == Ok && r.m.v == m.v[X(inst) := BitAnd(KK(inst), host.random)] && r.m == m.(v := r.m.v)
  {
    if !CheckInst(inst, 0xC000) then Invalid(m)
    else Outcome(m.(v := m.v[X(inst) := BitAnd(KK(inst), host.random)]), Ok)
  }

  /** Dxyn: Draw the n-row sprite at I at the position given by the nibbles x
      and y themselves (the registers Vx and Vy are not read), then VF = the
      collision flag. A failed sprite read returns the error with nothing changed. */
  function DrawSprite(m: Machine, inst: Word): (r: Outcome)
    requires m.Valid()
    ensures Guarded(D.DrawSprite, inst, m, r) && r.m.Valid()
    ensures D.Accepts(D.DrawSprite, inst) ==>
              var (s, flag, err) := Display.DrawResult(m.mem, m.screen, X(inst), Y(inst), N(inst), m.i);
              (err != Ok ==> r == Outcome(m, err)) &&
              (err == Ok ==> r == Outcome(m.(screen := s, v := m.v[Registers.F := Registers.Flag(flag)]), Ok))
  {
    if !CheckInst(inst, 0xD000) then Invalid(m)
    else
      var (s, collision, err) := Display.DrawResult(m.mem, m.screen, X(inst), Y(inst), N(inst), m.i);
      if err != Ok then Outcome(m, err)
      else Outcome(m.(screen := s, v := m.v[Registers.F := Registers.Flag(collision)]), Ok)
  }

  // ----------------------------------------------------------------- keypad

  /** Ex9E: skip the next instruction iff the key Vx is pressed. */
  function SkipIfKey(m: Machine, inst: Word, host: Host): (r: Outcome)
    requires m.Valid()
    ensures Guarded(D.SkipIfKey, inst, m, r) && r.m.Valid()
    ensures D.Accepts(D.SkipIfKey, inst) && host.pressError ==> r == Outcome(m, Fail(KeypadError))
    ensures D.Accepts(D.SkipIfKey, inst) && !host.pressError ==>
              r.status == Ok && r.m == if m.v[X(inst)] in host.pressed then Skip(m) else m
  {
    if !CheckInst(inst, 0xE000) || KK(inst) != 0x9E then Invalid(m)
    else if host.pressError then Outcome(m, Fail(KeypadError))
    else if m.v[X(inst)] in host.pressed then Outcome(Skip(m), Ok)
    else Outcome(m, Ok)
  }

  /** ExA1: skip the next instruction iff the key Vx is not pressed. */
  function SkipIfNotKey(m: Machine, inst: Word, host: Host): (r: Outcome)
    requires m.Valid()
    ensures Guarded(D.SkipIfNotKey, inst, m, r) && r.m.Valid()
    ensures D.Accepts(D.SkipIfNotKey, inst) && host.pressError ==> r == Outcome(m, Fail(KeypadError))
    ensures D.Accepts(D.SkipIfNotKey, inst) && !host.pressError ==>
              r.status == Ok && r.m == if m.v[X(inst)] !in host.pressed then Skip(m) else m
  {
    if !CheckInst(inst, 0xE000) || KK(inst) != 0xA1 then Invalid(m)
    else if host.pressError then Outcome(m, Fail(KeypadError))
    else if m.v[X(inst)] !in host.pressed then Outcome(Skip(m), Ok)
    else Outcome(m, Ok)
  }

  /** Fx0A: Vx = the key the keypad reports. */
  function WaitForKey(m: Machine, inst: Word, host: Host): (r: Outcome)
    requires m.Valid()
    ensures Guarded(D.WaitForKey, inst, m, r) && r.m.Valid()
    ensures D.Accepts(D.WaitForKey, inst) && host.keyError ==> r == Outcome(m, Fail(KeypadError))
    ensures D.Accepts(D.WaitForKey, inst) && !host.keyError ==>
              r.status == Ok && r.m.v[X(inst)] == host.key && r.m == m.(v := r.m.v) &&
              forall k :: 0 <= k < Registers.Count && k != X(inst) ==> r.m.v[k] == m.v[k]
  {
    if !CheckInst(inst, 0xF000) || KK(inst) != 0x0A then Invalid(m)
    else if host.keyError then Outcome(m, Fail(KeypadError))
    else Outcome(m.(v := m.v[X(inst) := host.key]), Ok)
  }

  // ------------------------------------------------------------ timer and I

  /** Fx07: Vx = the delay timer, truncated to `uint8`. */
  function SetRegDT(m: Machine, inst: Word): (r: Outcome)
    requires m.Valid()
    ensures Guarded(D.SetRegDT, inst, m, r) && r.m.Valid()
    ensures D.Accepts(D.SetRegDT, inst) ==>
              r.status == Ok && r.m.v[X(inst)] == m.dt % 0x100 && r.m == m.(v := r.m.v) &&
              forall k :: 0 <= k < Registers.Count && k != X(inst) ==> r.m.v[k] == m.v[k]
  {
    if !CheckInst(inst, 0xF000) || KK(inst) != 0x07 then Invalid(m)
    else Outcome(m.(v := m.v[X(inst) := m.dt % 0x100]), Ok)
  }

  /** Fx15: the delay timer = Vx. */
  function SetDT(m: Machine, inst: Word): (r: Outcome)
    requires m.Valid()
    ensures Guarded(D.SetDT, inst, m, r) && r.m.Valid()
    ensures D.Accepts(D.SetDT, inst) ==> r.status == Ok && r.m.dt == m.v[X(inst)] && r.m == m.(dt := r.m.dt)
  {
    if !CheckInst(inst, 0xF000) || KK(inst) != 0x15 then Invalid(m)
    else Outcome(m.(dt := m.v[X(inst)]), Ok)
  }

  /** Fx1E: I = I + Vx, wrapping as a `uint16`. */
  function AddIReg(m: Machine, inst: Word): (r: Outcome)
    requires m.Valid()
    ensures Guarded(D.AddIReg, inst, m, r) && r.m.Valid()
    ensures D.Accepts(D.AddIReg, inst) ==> r.status == Ok && r.m == m.(i := r.m.i)
    ensures D.Accepts(D.AddIReg, inst) && m.i + m.v[X(inst)] < 0x1_0000 ==> r.m.i == m.i + m.v[X(inst)]
    ensures D.Accepts(D.AddIReg, inst) && m.i + m.v[X(inst)] >= 0x1_0000 ==> r.m.i == m.i + m.v[X(inst)] - 0x1_0000
  {
    if !CheckInst(inst, 0xF000) || KK(inst) != 0x1E then Invalid(m)
    else Outcome(m.(i := AddWord(m.i, m.v[X(inst)])), Ok)
  }

  /** Fx29: I = the address 5 * Vx of glyph Vx; a value above 0xF is an error. */
  function SetISprite(m: Machine, inst: Word): (r: Outcome)
    requires m.Valid()
    ensures Guarded(D.SetISprite, inst, m, r) && r.m.Valid()
    ensures D.Accepts(D.SetISprite, inst) && m.v[X(inst)] > 0xF ==> r == Outcome(m, Fail(InvalidGlyph))
    ensures D.Accepts(D.SetISprite, inst) && m.v[X(inst)] <= 0xF ==>
              r.status == Ok && r.m.i == 5 * m.v[X(inst)] && r.m == m.(i := r.m.i)
  {
    if !CheckInst(inst, 0xF000) || KK(inst) != 0x29 then Invalid(m)
    else if m.v[X(inst)] > 0xF then Outcome(m, Fail(InvalidGlyph))
    else Outcome(m.(i := (m.v[X(inst)] * 5) % 0x100), Ok)
  }

  // ------------------------------------------------------------ memory transfers

  /** The three digits SplitDecimal computes: `(d / 100) % 10`, `(d / 10) % 10`
      and `d & 10` (a bitwise AND, where the decimal ones digit `d % 10` was
      meant). */
  function Digits(d: Byte): (r: (Byte, Byte, Byte))
    ensures r.0 < 10 && r.1 < 10
    ensures r.0 * 100 + r.1 * 10 + d % 10 == d
    ensures r.2 == BitAnd(d, 10)
  {
    assert d / 100 < 3 && (d / 100) % 10 == d / 100;
    assert (d / 10) % 10 == d / 10 - 10 * (d / 100);
    ((d / 100) % 10, (d / 10) % 10, BitAnd(d, 10))
  }

  /** Fx33: write the three digits of Vx to I, I + 1 and I + 2 (the sums wrap
      as `uint16`). Each write lands only if its address is in range; the write
      errors are dropped and the handler always succeeds. */
  function SplitDecimal(m: Machine, inst: Word): (r: Outcome)
    requires m.Valid()
    ensures Guarded(D.SplitDecimal, inst, m, r) && r.m.Valid()
    ensures D.Accepts(D.SplitDecimal, inst) ==>
              var (hundred, ten, one) := Digits(m.v[X(inst)]);
              r.status == Ok && r.m == m.(mem := r.m.mem) &&
              forall a :: 0 <= a < MemoryUnit.Size ==>
                r.m.mem[a] == if a == m.i then hundred
                              else if a == AddWord(m.i, 1) then ten
                              else if a == AddWord(m.i, 2) then one
                              else m.mem[a]
  {
    if !CheckInst(inst, 0xF000) || KK(inst) != 0x33 then Invalid(m)
    else
      var (hundred, ten, one) := Digits(m.v[X(inst)]);
      var mem1 := MemoryUnit.Store(m.mem, hundred, m.i).0;
      var mem2 := MemoryUnit.Store(mem1, ten, AddWord(m.i, 1)).0;
      var mem3 := MemoryUnit.Store(mem2, one, AddWord(m.i, 2)).0;
      Outcome(m.(mem := mem3), Ok)
  }

  /** The last register index the Fx55/Fx65 loops can reach before indexing
      past V: the loop bound V[x], capped at 15. */
  function Last(e: Byte): (l: nat)
    ensures l < Registers.Count && l <= e
    ensures e < Registers.Count ==> l == e
  {
    if e < Registers.Count then e else Registers.Count - 1
  }

  /** The first offset from I that is out of range, from which on the
      transfers fail. When I itself is out of range it is 0. */
  function FirstOut(i: Word): nat
  {
    if i >= MemoryUnit.Size then 0 else MemoryUnit.Size - i
  }

  /** The StoreRegs loop from index k on: `V[k]` goes to `I + k` for each k up
      to the loop bound e, stopping at the first failing write; index 16 would
      read past V. */
  function StoreFrom(mem: seq<Byte>, v: Registers.Regs, i: Word, e: Byte, k: nat): (r: (seq<Byte>, Status))
    requires |mem| == MemoryUnit.Size && k <= Registers.Count
    ensures |r.0| == MemoryUnit.Size
    ensures r.1 == Ok || r.1 == Fail(OutOfBounds) || r.1 == Fail(IndexPanic)
    decreases Registers.Count - k
  {
    if k > e then (mem, Ok)
    else if k == Registers.Count then (mem, Fail(IndexPanic))
    else
      var (mem', err) := MemoryUnit.Store(mem, v[k], AddWord(i, k));
      if err != Ok then (mem', err) else StoreFrom(mem', v, i, e, k + 1)
  }

  /** The status the Fx55/Fx65 loops end with, from index k on: an out-of-range
      address met before the last index, else the index past V, else success. */
  function TransferStatus(i: Word, e: Byte, k: nat): Status
  {
    if k <= Last(e) && FirstOut(i) <= Last(e) then Fail(OutOfBounds)
    else if e >= Registers.Count then Fail(IndexPanic)
    else Ok
  }

  /** From index k on, StoreRegs writes V[a - I] to every address a between
      I + k and I + Last(e) that is in range, keeps every other byte, and ends
      with TransferStatus. */
  lemma {:induction false} StoreFromEffect(mem: seq<Byte>, v: Registers.Regs, i: Word, e: Byte, k: nat)
    requires |mem| == MemoryUnit.Size && k <= Last(e) + 1 && k <= FirstOut(i)
    ensures StoreFrom(mem, v, i, e, k).1 == TransferStatus(i, e, k)
    ensures forall a :: 0 <= a < MemoryUnit.Size ==>
              StoreFrom(mem, v, i, e, k).0[a] == if i + k <= a <= i + Last(e) then v[a - i] else mem[a]
    decreases Registers.Count - k
  {
    if k <= e && k < Registers.Count {
      if k < FirstOut(i) {
        assert AddWord(i, k) == i + k;
        var mem' := MemoryUnit.Store(mem, v[k], i + k).0;
        StoreFromEffect(mem', v, i, e, k + 1);
      } else {
        assert AddWord(i, k) >= MemoryUnit.Size;
      }
    }
  }

  /** Fx55: store V0 .. V[e] at I .. I + e, where e is the VALUE of Vx. The
      error of the first failing write is returned with the earlier bytes
      written; with e above 15 the loop reaches V[16] and the program panics. */
  function StoreRegs(m: Machine, inst: Word): (r: Outcome)
    requires m.Valid()
    ensures Guarded(D.StoreRegs, inst, m, r) && r.m.Valid()
    ensures D.Accepts(D.StoreRegs, inst) ==> r.m == m.(mem := r.m.mem)
  {
    if !CheckInst(inst, 0xF000) || KK(inst) != 0x55 then Invalid(m)
    else
      var (mem, err) := StoreFrom(m.mem, m.v, m.i, m.v[X(inst)], 0);
      Outcome(m.(mem := mem), err)
  }

  /** StoreRegs in closed form. */
  lemma StoreRegsEffect(m: Machine, inst: Word)
    requires m.Valid() && D.Accepts(D.StoreRegs, inst)
    ensures var e := m.v[X(inst)];
            StoreRegs(m, inst).status == TransferStatus(m.i, e, 0) &&
            forall a :: 0 <= a < MemoryUnit.Size ==>
              StoreRegs(m, inst).m.mem[a] == if m.i <= a <= m.i + Last(e) then m.v[a - m.i] else m.mem[a]
  {
    StoreFromEffect(m.mem, m.v, m.i, m.v[X(inst)], 0);
  }

  /** The LoadRegs loop from index k on: `V[k]` is read from `I + k` for each k
      up to the loop bound e. A failing read still assigns its 0 to V[k]
      before the error is returned; index 16 is past V. */
  function LoadRegsFrom(mem: seq<Byte>, v: Registers.Regs, i: Word, e: Byte, k: nat): (r: (Registers.Regs, Status))
    requires |mem| == MemoryUnit.Size && k <= Registers.Count
    ensures r.1 == Ok || r.1 == Fail(OutOfBounds) || r.1 == Fail(IndexPanic)
    decreases Registers.Count - k
  {
    if k > e then (v, Ok)
    else if k == Registers.Count then (v, Fail(IndexPanic))
    else
      var (b, err) := MemoryUnit.Load(mem, AddWord(i, k));
      if err != Ok then (v[k := b], err) else LoadRegsFrom(mem, v[k := b], i, e, k + 1)
  }

  /** From index k on, LoadRegs fills each register j from k to Last(e) with
      `mem[I + j]` while that address is in range, zeroes the register at the
      first out-of-range address, keeps the others, and ends with TransferStatus. */
  lemma {:induction false} LoadRegsFromEffect(mem: seq<Byte>, v: Registers.Regs, i: Word, e: Byte, k: nat)
    requires |mem| == MemoryUnit.Size && k <= Last(e) + 1 && k <= FirstOut(i)
    ensures LoadRegsFrom(mem, v, i, e, k).1 == TransferStatus(i, e, k)
    ensures forall j :: 0 <= j < Registers.Count ==>
              LoadRegsFrom(mem, v, i, e, k).0[j] ==
                if k <= j <= Last(e) && j < FirstOut(i) then mem[i + j]
                else if k <= j <= Last(e) && j == FirstOut(i) then 0
                else v[j]
    decreases Registers.Count - k
  {
    if k <= e && k < Registers.Count {
      if k < FirstOut(i) {
        assert AddWord(i, k) == i + k;
        var v' := v[k := mem[i + k]];
        LoadRegsFromEffect(mem, v', i, e, k + 1);
      } else {
        assert k == FirstOut(i);
        assert AddWord(i, k) >= MemoryUnit.Size;
      }
    }
  }

  /** Fx65: read V0 .. V[e] from I .. I + e, where e is the VALUE of Vx. */
  function LoadRegs(m: Machine, inst: Word): (r: Outcome)
    requires m.Valid()
    ensures Guarded(D.LoadRegs, inst, m, r) && r.m.Valid()
    ensures D.Accepts(D.LoadRegs, inst) ==> r.m == m.(v := r.m.v)
  {
    if !CheckInst(inst, 0xF000) || KK(inst) != 0x65 then Invalid(m)
    else
      var (v, err) := LoadRegsFrom(m.mem, m.v, m.i, m.v[X(inst)], 0);
      Outcome(m.(v := v), err)
  }

  /** LoadRegs in closed form. */
  lemma LoadRegsEffect(m: Machine, inst: Word)
    requires m.Valid() && D.Accepts(D.LoadRegs, inst)
    ensures var e := m.v[X(inst)];
            LoadRegs(m, inst).status == TransferStatus(m.i, e, 0) &&
            forall j :: 0 <= j < Registers.Count ==>
              LoadRegs(m, inst).m.v[j] ==
                if j <= Last(e) && j < FirstOut(m.i) then m.mem[m.i + j]
                else if j <= Last(e) && j == FirstOut(m.i) then 0
                else m.v[j]
  {
    LoadRegsFromEffect(m.mem, m.v, m.i, m.v[X(inst)], 0);
  }

  /** The placeholder handler: succeeds and changes nothing. */
  function NotImplemented(m: Machine, inst: Word): (r: Outcome)
    ensures r == Outcome(m, Ok)
  {
    Outcome(m, Ok)
  }

  // ------------------------------------------------------------------ lemmas

  /** A Call whose push succeeds, followed by a Return, comes back to the
      calling PC with the stack pointer restored; only the stack slot that
      held the return address keeps it. */
  lemma CallThenReturn(m: Machine, inst: Word, ret: Word)
    requires m.Valid() && m.stack.sp <= CallStack.SPInit
    requires D.Accepts(D.Call, inst) && Call(m, inst).status == Ok && D.Accepts(D.Return, ret)
    ensures var after := Return(Call(m, inst).m, ret);
            after.status == Ok && after.m == m.(stack := m.stack.(slots := after.m.stack.slots)) &&
            after.m.stack.slots[m.stack.sp - 1] == m.pc
  {
  }

  /** From a new CPU, 2nnn pushes 0x200 into the top slot, Stack[15], and jumps to nnn. */
  lemma CallFromNew(mem: seq<Byte>, screen: Display.Pixels, dt: DelayTimer.Uint, inst: Word)
    requires |mem| == MemoryUnit.Size && Display.IsScreen(screen) && D.Accepts(D.Call, inst)
    ensures var r := Call(New(mem, screen, dt), inst);
            r.status == Ok && r.m.stack.sp == 15 && r.m.stack.slots[15] == 0x200 && r.m.pc == inst % 0x1000
  {
  }

  /** Bnnn with nnn = 0xFEF and V0 = 164 jumps to 0x1093, past the end of memory. */
  lemma JumpWithRegPastMemory(m: Machine)
    requires m.Valid() && m.v[0] == 164
    ensures JumpWithReg(m, 0xBFEF) == Outcome(m.(pc := 0x1093), Ok)
  {
  }

  /** SetDT followed by SetRegDT copies a register into another through the timer. */
  lemma SetDTThenSetRegDT(m: Machine, setInst: Word, getInst: Word)
    requires m.Valid() && D.Accepts(D.SetDT, setInst) && D.Accepts(D.SetRegDT, getInst)
    ensures var r := SetRegDT(SetDT(m, setInst).m, getInst);
            r.status == Ok && r.m.v[X(getInst)] == m.v[X(setInst)] && r.m.dt == m.v[X(setInst)]
  {
  }

  /** Fx33 on the value 137 stores 1, 3 and 8: the ones digit is `137 & 10`,
      not 7. */
  lemma SplitDecimalOf137(m: Machine, inst: Word)
    requires m.Valid() && D.Accepts(D.SplitDecimal, inst) && m.v[X(inst)] == 137
    requires m.i + 2 < MemoryUnit.Size
    ensures var mem := SplitDecimal(m, inst).m.mem;
            mem[m.i] == 1 && mem[m.i + 1] == 3 && mem[m.i + 2] == 8 && 137 % 10 == 7
  {
    assert BitAnd(137, 10) == 8;
  }

  /** Fx29 after Init points I at a cell that holds the last row of glyph Vx:
      Init leaves only that row at 5 * Vx. */
  lemma SetISpriteAfterInit(m: Machine, inst: Word, blank: seq<Byte>)
    requires m.Valid() && |blank| == MemoryUnit.Size && m.mem == InitFrom(blank, 0)
    requires D.Accepts(D.SetISprite, inst) && m.v[X(inst)] <= 0xF
    ensures var r := SetISprite(m, inst);
            r.status == Ok && r.m.mem[r.m.i] == Glyphs[m.v[X(inst)]][4]
  {
    var g := m.v[X(inst)];
    var r := SetISprite(m, inst);
    assert r.m.i == 5 * g && r.m.mem == m.mem;
    InitGlyphCell(blank, g);
  }

  /** The cell Init leaves at 5g. */
  lemma InitGlyphCell(blank: seq<Byte>, g: nat)
    requires |blank| == MemoryUnit.Size && g < 16
    ensures InitFrom(blank, 0)[5 * g] == Glyphs[g][4]
  {
    InitGlyphFrom(blank, 0, g);
  }

  /** The cell at 5g after Init's loop from any glyph g0 <= g on. */
  lemma InitGlyphFrom(mem: seq<Byte>, g0: nat, g: nat)
    requires |mem| == MemoryUnit.Size && g0 <= g < 16
    ensures InitFrom(mem, g0)[5 * g] == Glyphs[g][4]
  {
    var a := 5 * g;
    assert a % 5 == 0 && a / 5 == g && a < MemoryUnit.Size;
    InitEffect(mem, g0);
  }

  /** Dxyn draws the same way whatever the registers hold: the position comes
      from the instruction's nibbles, not from Vx and Vy. */
  lemma DrawSpriteIgnoresRegisters(m: Machine, inst: Word, w: Registers.Regs)
    requires m.Valid()
    ensures DrawSprite(m, inst).status == DrawSprite(m.(v := w), inst).status
    ensures DrawSprite(m, inst).m.screen == DrawSprite(m.(v := w), inst).m.screen
  {
  }

  /** After a successful Dxyn, VF is 1 iff some visited pixel differed from
      the sprite bit drawn onto it. */
  lemma DrawSpriteCollision(m: Machine, inst: Word)
    requires m.Valid() && D.Accepts(D.DrawSprite, inst) && DrawSprite(m, inst).status == Ok
    ensures var n := N(inst);
            m.i % 0x1000 + n <= MemoryUnit.Size &&
            (DrawSprite(m, inst).m.v[Registers.F] == 1 <==>
              exists dr, dc :: 0 <= dr < n && 0 <= dc < n &&
                Display.Bit(Display.SpriteAt(m.mem, m.i, n)[dr], dc) != Display.At(m.screen, X(inst), Y(inst), dc, dr))
  {
    Display.DrawFlag(m.mem, m.screen, X(inst), Y(inst), N(inst), m.i);
  }

  /** Executing the same Dxyn twice restores the screen. */
  lemma DrawSpriteTwiceRestores(m: Machine, inst: Word)
    requires m.Valid() && D.Accepts(D.DrawSprite, inst) && DrawSprite(m, inst).status == Ok
    ensures var r := DrawSprite(DrawSprite(m, inst).m, inst);
            r.status == Ok && r.m.screen == m.screen
  {
    Display.DrawTwiceRestores(m.mem, m.screen, X(inst), Y(inst), N(inst), m.i);
  }
}
