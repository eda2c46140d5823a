/** The `CPU` struct of `src/cpu.go` and its methods from `src/cpu.go` and
    `src/instructions.go`, updating its fields and the arrays it points to in
    place.

    `State()` reads the whole machine out of the objects, and every method
    ensures that the state it leaves and the error it returns are what the
    reference function in `Machine`, `Handlers` or `Interpreter` gives for the
    state it started from. The keypad pointer is not a field: the keypad's
    answers come in as a `Host` value. */
module Cpu {
  import opened Common
  import MemoryUnit
  import CallStack
  import Registers
  import Display
  import DelayTimer
  import D = Decoder
  import H = Handlers
  import Interpreter
  import Machine

  class CPU {
    var PC: Word
    var I: Word
    const G: Display.Graphics
    const DT: DelayTimer.Timer
    const Stack: array<Word>
    var SP: Byte
    const Memory: MemoryUnit.Memory
    const V: array<Byte>

    /** The screen draws from the CPU's own memory, as `main.go` wires them. */
    ghost predicate Valid()
      reads this, G, G.m, G.screen, Memory, V, Stack
    {
      Memory.Valid() && G.Valid() && G.m == Memory &&
      Stack.Length == CallStack.Depth && V.Length == Registers.Count && V != Memory.memory
    }

    /** The machine these objects hold. */
    ghost function State(): (s: Machine.Machine)
      requires Valid()
      reads this, G, G.m, G.screen, Memory, Memory.memory, V, Stack, DT
      ensures s.Valid()
    {
      Machine.Machine(PC, I, CallStack.Stack(SP, Stack[..]), V[..], Memory.memory[..], G.Pixels, DT.timer)
    }

    /** NewCPU: PC = 0x200, I = 0, SP = 16 and zeroed stack and registers
        over the given memory, screen and timer. */
    constructor (m: MemoryUnit.Memory, g: Display.Graphics, dt: DelayTimer.Timer)
      requires m.Valid() && g.Valid() && g.m == m
      ensures Valid() && Memory == m && G == g && DT == dt
      ensures State() == Machine.New(m.memory[..], g.Pixels, dt.timer)
      ensures fresh(Stack) && fresh(V)
    {
      PC := Machine.PCInit;
      I := 0;
      G := g;
      DT := dt;
      Stack := new Word[CallStack.Depth](_ => 0);
      SP := CallStack.SPInit;
      Memory := m;
      V := new Byte[Registers.Count](_ => 0);
      new;
      assert Stack[..] == CallStack.Empty().slots;
      assert V[..] == seq(Registers.Count, _ => 0);
    }

    // ------------------------------------------------------------ cpu.go

    /** writeSprite: every row goes to `addr + 0`; the write errors are dropped. */
    method writeSprite(sprite: seq<Byte>, addr: Word) returns (err: Status)
      requires Valid()
      modifies Memory.memory
      ensures Valid() && err == Ok
      ensures Memory.memory[..] == Machine.WriteSpriteFrom(old(Memory.memory[..]), sprite, addr, 0)
    {
      ghost var target := Machine.WriteSpriteFrom(Memory.memory[..], sprite, addr, 0);
      var i := 0;
      while i < |sprite|
        invariant Valid() && 0 <= i <= |sprite|
        invariant Machine.WriteSpriteFrom(Memory.memory[..], sprite, addr, i) == target
      {
        var _ := Memory.Write(sprite[i], addr);  // addr+0
        i := i + 1;
      }
      return Ok;
    }

    /** Init: write the sixteen glyphs at 5g, g = 0 .. 15. */
    method Init() returns (err: Status)
      requires Valid()
      modifies Memory.memory
      ensures Valid() && err == Ok
      ensures State() == old(State()).(mem := Machine.InitFrom(old(Memory.memory[..]), 0))
    {
      ghost var target := Machine.InitFrom(Memory.memory[..], 0);
      var addr: Word := 0;
      var g := 0;
      while g < 16
        invariant Valid() && 0 <= g <= 16 && addr == 5 * g
        invariant Machine.InitFrom(Memory.memory[..], g) == target
        invariant State() == old(State()).(mem := Memory.memory[..])
      {
        var e := writeSprite(Machine.Glyphs[g], addr);
        if e != Ok {
          return e;
        }
        addr := addr + 5;
        g := g + 1;
      }
      return Ok;
    }

    /** Fetch: the big-endian word at PC and PC + 1; it changes nothing. */
    method Fetch() returns (inst: Word, err: Status)
      requires Valid()
      ensures (inst, err) == Machine.Fetch(Memory.memory[..], PC)
    {
      var hi, e1 := Memory.Read(PC);
      if e1 != Ok {
        return 0, e1;
      }
      var lo, e2 := Memory.Read(AddWord(PC, 1));  // c.PC + 1
      if e2 != Ok {
        return 0, e2;
      }
      return hi as int * 0x100 + lo, Ok;  // binary.BigEndian.Uint16
    }

    /** Push: decrement SP (wrapping), then fail or store `data` at Stack[SP]. */
    method Push(data: Word) returns (err: Status)
      requires Valid()
      modifies this, Stack
      ensures Valid()
      ensures State() == old(State()).(stack := CallStack.Push(old(State()).stack, data).0)
      ensures err == CallStack.Push(old(State()).stack, data).1
    {
      SP := SubByte(SP, 1);  // c.SP--
      if SP >= CallStack.Depth {
        return Fail(StackLimit);
      }
      Stack[SP] := data;
      return Ok;
    }

    /** Pop: refuse SP above 16, else read Stack[SP] and increment SP. At
        SP = 16 Go's bounds check on `c.Stack[c.SP]` panics, which is the
        IndexPanic error here. */
    method Pop() returns (data: Word, err: Status)
      requires Valid()
      modifies this
      ensures Valid()
      ensures var (s, d, e) := CallStack.Pop(old(State()).stack);
              State() == old(State()).(stack := s) && data == d && err == e
    {
      if SP > CallStack.SPInit {
        return 0, Fail(EmptyStack);
      }
      if SP >= CallStack.Depth {
        return 0, Fail(IndexPanic);
      }
      data := Stack[SP];
      SP := SP + 1;
      return data, Ok;
    }

    /** LoadProgram: `program[i]` to `uint16(512 + uint16(i))`, stopping at
        the first failing write. */
    method LoadProgram(program: seq<Byte>) returns (err: Status)
      requires Valid()
      modifies Memory.memory
      ensures Valid()
      ensures var (mem, e) := Machine.LoadFrom(old(Memory.memory[..]), program, 0);
              State() == old(State()).(mem := mem) && err == e
    {
      ghost var target := Machine.LoadFrom(Memory.memory[..], program, 0);
      var start: Word := 512;
      var i := 0;
      while i < |program|
        invariant Valid() && 0 <= i <= |program|
        invariant Machine.LoadFrom(Memory.memory[..], program, i) == target
        invariant State() == old(State()).(mem := Memory.memory[..])
      {
        var addr := AddWord(start, i % 0x1_0000);
        var e := Memory.Write(program[i], addr);
        if e != Ok {
          return e;
        }
        i := i + 1;
      }
      return Ok;
    }

    /** One iteration of Run without the SDL calls: fetch, decode, run the
        handler, and `PC += 2` when it succeeds. */
    method Step(host: H.Host) returns (err: Status)
      requires Valid()
      modifies this, Stack, V, Memory.memory, G, G.screen, DT
      ensures Valid()
      ensures Machine.Outcome(State(), err) == Interpreter.Step(old(State()), host)
    {
      var inst, e := Fetch();
      if e != Ok {
        return e;
      }
      var handler := D.Decode(inst);
      if handler.Reject? {
        return Fail(InvalidInstruction);
      }
      D.DecodeAccepts(inst);
      err := Execute(handler.op, inst, host);
      if err != Ok {
        return err;
      }
      PC := AddWord(PC, 2);  // c.PC += 2
    }

    /** Run the handler Decode chose. ClearScreen is never chosen. */
    method Execute(op: D.Op, inst: Word, host: H.Host) returns (err: Status)
      requires Valid() && op != D.ClearScreen
      modifies this, Stack, V, Memory.memory, G, G.screen, DT
      ensures Valid()
      ensures Machine.Outcome(State(), err) == Interpreter.Execute(op, old(State()), inst, host)
    {
      match op {
        case ClearScreen => assert false;
        case Return => err := Return(inst);
        case Jump => err := Jump(inst);
        case Call => err := Call(inst);
        case SkipEqualVal => err := SkipEqualVal(inst);
        case SkipNotEqualVal => err := SkipNotEqualVal(inst);
        case SkipEqualReg => err := SkipEqualReg(inst);
        case LoadValue => err := LoadValue(inst);
        case AddValue => err := AddValue(inst);
        case LoadReg => err := LoadReg(inst);
        case Or => err := Or(inst);
        case And => err := And(inst);
        case Xor => err := Xor(inst);
        case Add => err := Add(inst);
        case Sub => err := Sub(inst);
        case ShiftRight => err := ShiftRight(inst);
        case SubN => err := SubN(inst);
        case ShiftLeft => err := ShiftLeft(inst);
        case SkipNotEqualReg => err := SkipNotEqualReg(inst);
        case LoadI => err := LoadI(inst);
        case JumpWithReg => err := JumpWithReg(inst);
        case RandomAnd => err := RandomAnd(inst, host.random);
        case DrawSprite => err := DrawSprite(inst);
        case SkipIfKey => err := SkipIfKey(inst, host.pressed, host.pressError);
        case SkipIfNotKey => err := SkipIfNotKey(inst, host.pressed, host.pressError);
        case SetRegDT => err := SetRegDT(inst);
        case WaitForKey => err := WaitForKey(inst, host.key, host.keyError);
        case SetDT => err := SetDT(inst);
        case AddIReg => err := AddIReg(inst);
        case SetISprite => err := SetISprite(inst);
        case SplitDecimal => err := SplitDecimal(inst);
        case StoreRegs => err := StoreRegs(inst);
        case LoadRegs => err := LoadRegs(inst);
        case NotImplemented => err := NotImplemented(inst);
      }
    }

    // ---------------------------------------------------- instructions.go

    method Jump(inst: Word) returns (err: Status)
      requires Valid()
      modifies this
      ensures Valid()
      ensures Machine.Outcome(State(), err) == H.Jump(old(State()), inst)
    {
      if !CheckInst(inst, 0x1000) {
        return Fail(InvalidInstruction);
      }
      var addr := inst % 0x1000;  // inst & 0x0FFF
      PC := addr;
      return Ok;
    }

    method Call(inst: Word) returns (err: Status)
      requires Valid()
      modifies this, Stack
      ensures Valid()
      ensures Machine.Outcome(State(), err) == H.Call(old(State()), inst)
    {
      if !CheckInst(inst, 0x2000) {
        return Fail(InvalidInstruction);
      }
      var addr := inst % 0x1000;
      err := Push(PC);
      if err != Ok {
        return err;
      }
      PC := addr;
      return Ok;
    }

    method Return(inst: Word) returns (err: Status)
      requires Valid()
      modifies this
      ensures Valid()
      ensures Machine.Outcome(State(), err) == H.Return(old(State()), inst)
    {
      if !CheckInst(inst, 0x0000) || inst % 0x100 != 0xEE {
        return Fail(InvalidInstruction);
      }
      var addr;
      addr, err := Pop();
      if err != Ok {
        return err;
      }
      PC := addr;
      return Ok;
    }

    method SkipEqualVal(inst: Word) returns (err: Status)
      requires Valid()
      modifies this
      ensures Valid()
      ensures Machine.Outcome(State(), err) == H.SkipEqualVal(old(State()), inst)
    {
      if !CheckInst(inst, 0x3000) {
        return Fail(InvalidInstruction);
      }
      var reg := X(inst);
      var val := KK(inst);
      if V[reg] == val {
        PC := AddWord(PC, 2);
      }
      return Ok;
    }

    method SkipNotEqualVal(inst: Word) returns (err: Status)
      requires Valid()
      modifies this
      ensures Valid()
      ensures Machine.Outcome(State(), err) == H.SkipNotEqualVal(old(State()), inst)
    {
      if !CheckInst(inst, 0x4000) {
        return Fail(InvalidInstruction);
      }
      var reg := X(inst);
      var val := KK(inst);
      if V[reg] != val {
        PC := AddWord(PC, 2);
      }
      return Ok;
    }

    method SkipEqualReg(inst: Word) returns (err: Status)
      requires Valid()
      modifies this
      ensures Valid()
      ensures Machine.Outcome(State(), err) == H.SkipEqualReg(old(State()), inst)
    {
      if !CheckInst(inst, 0x5000) {
        return Fail(InvalidInstruction);
      }
      var regX, regY := X(inst), Y(inst);
      if V[regX] == V[regY] {
        PC := AddWord(PC, 2);
      }
      return Ok;
    }

    method LoadValue(inst: Word) returns (err: Status)
      requires Valid()
      modifies V
      ensures Valid()
      ensures Machine.Outcome(State(), err) == H.LoadValue(old(State()), inst)
    {
      if !CheckInst(inst, 0x6000) {
        return Fail(InvalidInstruction);
      }
      var r, v := X(inst), KK(inst);
      V[r] := v;
      return Ok;
    }

    method AddValue(inst: Word) returns (err: Status)
      requires Valid()
      modifies V
      ensures Valid()
      ensures Machine.Outcome(State(), err) == H.AddValue(old(State()), inst)
    {
      if !CheckInst(inst, 0x7000) {
        return Fail(InvalidInstruction);
      }
      var r, v := X(inst), KK(inst);
      V[r] := AddByte(V[r], v);
      return Ok;
    }

    method LoadReg(inst: Word) returns (err: Status)
      requires Valid()
      modifies V
      ensures Valid()
      ensures Machine.Outcome(State(), err) == H.LoadReg(old(State()), inst)
    {
      if !CheckInst(inst, 0x8000) || N(inst) != 0 {
        return Fail(InvalidInstruction);
      }
      var regX, regY := X(inst), Y(inst);
      V[regX] := V[regY];
      return Ok;
    }

    method Or(inst: Word) returns (err: Status)
      requires Valid()
      modifies V
      ensures Valid()
      ensures Machine.Outcome(State(), err) == H.Or(old(State()), inst)
    {
      if !CheckInst(inst, 0x8000) || N(inst) != 1 {
        return Fail(InvalidInstruction);
      }
      var regX, regY := X(inst), Y(inst);
      V[regX] := BitOr(V[regX], V[regY]);
      return Ok;
    }

    method And(inst: Word) returns (err: Status)
      requires Valid()
      modifies V
      ensures Valid()
      ensures Machine.Outcome(State(), err) == H.And(old(State()), inst)
    {
      if !CheckInst(inst, 0x8000) || N(inst) != 2 {
        return Fail(InvalidInstruction);
      }
      var regX, regY := X(inst), Y(inst);
      V[regX] := BitAnd(V[regX], V[regY]);
      return Ok;
    }

    method Xor(inst: Word) returns (err: Status)
      requires Valid()
      modifies V
      ensures Valid()
      ensures Machine.Outcome(State(), err) == H.Xor(old(State()), inst)
    {
      if !CheckInst(inst, 0x8000) || N(inst) != 3 {
        return Fail(InvalidInstruction);
      }
      var regX, regY := X(inst), Y(inst);
      V[regX] := BitXor(V[regX], V[regY]);
      return Ok;
    }

    method Add(inst: Word) returns (err: Status)
      requires Valid()
      modifies V
      ensures Valid()
      ensures Machine.Outcome(State(), err) == H.Add(old(State()), inst)
    {
      if !CheckInst(inst, 0x8000) || N(inst) != 4 {
        return Fail(InvalidInstruction);
      }
      var regX, regY := X(inst), Y(inst);
      var result: Word := V[regX] as int + V[regY];
      V[regX] := result % 0x100;  // uint8(result)
      if result > 255 {
        V[Registers.F] := 1;
      } else {
        V[Registers.F] := 0;
      }
      return Ok;
    }

    method Sub(inst: Word) returns (err: Status)
      requires Valid()
      modifies V
      ensures Valid()
      ensures Machine.Outcome(State(), err) == H.Sub(old(State()), inst)
    {
      if !CheckInst(inst, 0x8000) || N(inst) != 5 {
        return Fail(InvalidInstruction);
      }
      var regX, regY := X(inst), Y(inst);
      if V[regX] > V[regY] {
        V[Registers.F] := 1;
      } else {
        V[Registers.F] := 0;
      }
      V[regX] := SubByte(V[regX], V[regY]);
      return Ok;
    }

    method ShiftRight(inst: Word) returns (err: Status)
      requires Valid()
      modifies V
      ensures Valid()
      ensures Machine.Outcome(State(), err) == H.ShiftRight(old(State()), inst)
    {
      if !CheckInst(inst, 0x8000) || N(inst) != 6 {
        return Fail(InvalidInstruction);
      }
      var regX := X(inst);
      V[Registers.F] := V[regX] % 2;  // c.V[regX] & 1
      V[regX] := V[regX] / 2;         // c.V[regX] >>= 1
      return Ok;
    }

    method SubN(inst: Word) returns (err: Status)
      requires Valid()
      modifies V
      ensures Valid()
      ensures Machine.Outcome(State(), err) == H.SubN(old(State()), inst)
    {
      if !CheckInst(inst, 0x8000) || N(inst) != 7 {
        return Fail(InvalidInstruction);
      }
      var regX, regY := X(inst), Y(inst);
      if V[regX] < V[regY] {
        V[Registers.F] := 1;
      } else {
        V[Registers.F] := 0;
      }
      V[regX] := SubByte(V[regY], V[regX]);
      return Ok;
    }

    method ShiftLeft(inst: Word) returns (err: Status)
      requires Valid()
      modifies V
      ensures Valid()
      ensures Machine.Outcome(State(), err) == H.ShiftLeft(old(State()), inst)
    {
      if !CheckInst(inst, 0x8000) || N(inst) != 0xE {
        return Fail(InvalidInstruction);
      }
      var regX := X(inst);
      V[Registers.F] := V[regX] / 128;           // c.V[regX] >> 7
      V[regX] := (V[regX] as int * 2) % 0x100;   // c.V[regX] <<= 1
      return Ok;
    }

    method SkipNotEqualReg(inst: Word) returns (err: Status)
      requires Valid()
      modifies this
      ensures Valid()
      ensures Machine.Outcome(State(), err) == H.SkipNotEqualReg(old(State()), inst)
    {
      if !CheckInst(inst, 0x9000) {
        return Fail(InvalidInstruction);
      }
      var regX, regY := X(inst), Y(inst);
      if V[regX] != V[regY] {
        PC := AddWord(PC, 2);
      }
      return Ok;
    }

    method LoadI(inst: Word) returns (err: Status)
      requires Valid()
      modifies this
      ensures Valid()
      ensures Machine.Outcome(State(), err) == H.LoadI(old(State()), inst)
    {
      if !CheckInst(inst, 0xA000) {
        return Fail(InvalidInstruction);
      }
      var addr := inst % 0x1000;
      I := addr;
      return Ok;
    }

    method JumpWithReg(inst: Word) returns (err: Status)
      requires Valid()
      modifies this
      ensures Valid()
      ensures Machine.Outcome(State(), err) == H.JumpWithReg(old(State()), inst)
    {
      if !CheckInst(inst, 0xB000) {
        return Fail(InvalidInstruction);
      }
      var addr := inst % 0x1000;
      PC := AddWord(addr, V[0]);
      return Ok;
    }

    /** Cxkk with the random byte `uint8(rand.Int31())` given. */
    method RandomAnd(inst: Word, random: Byte) returns (err: Status)
      requires Valid()
      modifies V
      ensures Valid()
      ensures Machine.Outcome(State(), err) == H.RandomAnd(old(State()), inst, H.Host(random, {}, false, 0, false, false))
    {
      if !CheckInst(inst, 0xC000) {
        return Fail(InvalidInstruction);
      }
      var v, regX := KK(inst), X(inst);
      V[regX] := BitAnd(v, random);
      return Ok;
    }

    method DrawSprite(inst: Word) returns (err: Status)
      requires Valid()
      modifies V, G, G.screen
      ensures Valid()
      ensures Machine.Outcome(State(), err) == H.DrawSprite(old(State()), inst)
    {
      if !CheckInst(inst, 0xD000) {
        return Fail(InvalidInstruction);
      }
      var x, y, size := X(inst), Y(inst), N(inst);
      var collision;
      collision, err := G.Draw(x, y, size, I);
      if err != Ok {
        return err;
      }
      if collision {
        V[Registers.F] := 1;
      } else {
        V[Registers.F] := 0;
      }
      return Ok;
    }

    /** Ex9E with the keypad's answer to `IsPressed(V[x])` given. */
    method SkipIfKey(inst: Word, pressed: set<Byte>, pressError: bool) returns (err: Status)
      requires Valid()
      modifies this
      ensures Valid()
      ensures Machine.Outcome(State(), err) == H.SkipIfKey(old(State()), inst, H.Host(0, pressed, pressError, 0, false, false))
    {
      if !CheckInst(inst, 0xE000) || inst % 0x100 != 0x9E {
        return Fail(InvalidInstruction);
      }
      var reg := X(inst);
      if pressError {
        return Fail(KeypadError);
      }
      if V[reg] in pressed {
        PC := AddWord(PC, 2);
      }
      return Ok;
    }

    /** ExA1 with the keypad's answer to `IsPressed(V[x])` given. */
    method SkipIfNotKey(inst: Word, pressed: set<Byte>, pressError: bool) returns (err: Status)
      requires Valid()
      modifies this
      ensures Valid()
      ensures Machine.Outcome(State(), err) == H.SkipIfNotKey(old(State()), inst, H.Host(0, pressed, pressError, 0, false, false))
    {
      if !CheckInst(inst, 0xE000) || inst % 0x100 != 0xA1 {
        return Fail(InvalidInstruction);
      }
      var reg := X(inst);
      if pressError {
        return Fail(KeypadError);
      }
      if V[reg] !in pressed {
        PC := AddWord(PC, 2);
      }
      return Ok;
    }

    /** Fx0A with the keypad's answer to `WaitForKey()` given. */
    method WaitForKey(inst: Word, key: Byte, keyError: bool) returns (err: Status)
      requires Valid()
      modifies V
      ensures Valid()
      ensures Machine.Outcome(State(), err) == H.WaitForKey(old(State()), inst, H.Host(0, {}, false, key, keyError, false))
    {
      if !CheckInst(inst, 0xF000) || inst % 0x100 != 0x0A {
        return Fail(InvalidInstruction);
      }
      var reg := X(inst);
      if keyError {
        return Fail(KeypadError);
      }
      V[reg] := key;
      return Ok;
    }

    method SetRegDT(inst: Word) returns (err: Status)
      requires Valid()
      modifies V
      ensures Valid()
      ensures Machine.Outcome(State(), err) == H.SetRegDT(old(State()), inst)
    {
      if !CheckInst(inst, 0xF000) || inst % 0x100 != 0x07 {
        return Fail(InvalidInstruction);
      }
      var reg := X(inst);
      var t, e := DT.Get();
      if e != Ok {
        return e;
      }
      V[reg] := t % 0x100;  // uint8(t)
      return Ok;
    }

    method SetDT(inst: Word) returns (err: Status)
      requires Valid()
      modifies DT
      ensures Valid()
      ensures Machine.Outcome(State(), err) == H.SetDT(old(State()), inst)
    {
      if !CheckInst(inst, 0xF000) || inst % 0x100 != 0x15 {
        return Fail(InvalidInstruction);
      }
      var reg := X(inst);
      err := DT.Set(V[reg]);
      if err != Ok {
        return err;
      }
      return Ok;
    }

    method AddIReg(inst: Word) returns (err: Status)
      requires Valid()
      modifies this
      ensures Valid()
      ensures Machine.Outcome(State(), err) == H.AddIReg(old(State()), inst)
    {
      if !CheckInst(inst, 0xF000) || inst % 0x100 != 0x1E {
        return Fail(InvalidInstruction);
      }
      var reg := X(inst);
      I := AddWord(I, V[reg]);
      return Ok;
    }

    method SetISprite(inst: Word) returns (err: Status)
      requires Valid()
      modifies this
      ensures Valid()
      ensures Machine.Outcome(State(), err) == H.SetISprite(old(State()), inst)
    {
      if !CheckInst(inst, 0xF000) || inst % 0x100 != 0x29 {
        return Fail(InvalidInstruction);
      }
      var reg := X(inst);
      if V[reg] > 0xF {
        return Fail(InvalidGlyph);
      }
      I := (V[reg] * 5) % 0x100;  // uint16(c.V[reg] * 5), a uint8 product
      return Ok;
    }

    method SplitDecimal(inst: Word) returns (err: Status)
      requires Valid()
      modifies Memory.memory
      ensures Valid()
      ensures Machine.Outcome(State(), err) == H.SplitDecimal(old(State()), inst)
    {
      if !CheckInst(inst, 0xF000) || inst % 0x100 != 0x33 {
        return Fail(InvalidInstruction);
      }
      var reg := X(inst);
      var dec := V[reg];
      var hundred := (dec / 100) % 10;
      var ten := (dec / 10) % 10;
      var one := BitAnd(dec, 10);
      var _ := Memory.Write(hundred, I);
      var _ := Memory.Write(ten, AddWord(I, 1));
      var _ := Memory.Write(one, AddWord(I, 2));
      return Ok;
    }

    method StoreRegs(inst: Word) returns (err: Status)
      requires Valid()
      modifies Memory.memory
      ensures Valid()
      ensures Machine.Outcome(State(), err) == H.StoreRegs(old(State()), inst)
    {
      if !CheckInst(inst, 0xF000) || inst % 0x100 != 0x55 {
        return Fail(InvalidInstruction);
      }
      var reg := X(inst);
      var e := V[reg];
      ghost var target := H.StoreFrom(Memory.memory[..], V[..], I, e, 0);
      var i := 0;
      while i <= e
        invariant Valid() && 0 <= i <= Registers.Count
        invariant H.StoreFrom(Memory.memory[..], V[..], I, e, i) == target
        invariant State() == old(State()).(mem := Memory.memory[..])
      {
        if i == Registers.Count {
          return Fail(IndexPanic);  // c.V[16] is out of range
        }
        err := Memory.Write(V[i], AddWord(I, i));
        if err != Ok {
          return err;
        }
        i := i + 1;
      }
      return Ok;
    }

    method LoadRegs(inst: Word) returns (err: Status)
      requires Valid()
      modifies V
      ensures Valid()
      ensures Machine.Outcome(State(), err) == H.LoadRegs(old(State()), inst)
    {
      if !CheckInst(inst, 0xF000) || inst % 0x100 != 0x65 {
        return Fail(InvalidInstruction);
      }
      var reg := X(inst);
      var e := V[reg];
      ghost var target := H.LoadRegsFrom(Memory.memory[..], V[..], I, e, 0);
      var i := 0;
      while i <= e
        invariant Valid() && 0 <= i <= Registers.Count
        invariant H.LoadRegsFrom(Memory.memory[..], V[..], I, e, i) == target
        invariant State() == old(State()).(v := V[..])
      {
        var addr := AddWord(I, i);
        var b;
        b, err := Memory.Read(addr);
        if i == Registers.Count {
          return Fail(IndexPanic);  // the assignment to c.V[16] is out of range
        }
        V[i] := b;
        if err != Ok {
          return err;
        }
        i := i + 1;
      }
      return Ok;
    }

    method NotImplemented(inst: Word) returns (err: Status)
      requires Valid()
      ensures Machine.Outcome(State(), err) == H.NotImplemented(State(), inst)
    {
      return Ok;
    }
  }
}
