/** The `CPU` struct of the root-level `cpu.go` and its methods from `cpu.go`
    and `instructions.go`, updating its fields and arrays in place. Its `Memory`
    field has the package's `memory` interface type; the model fixes its
    dynamic value to a `Memory` struct value, as the tests store there, whose
    value-receiver methods act on a copy. Every method ensures that the state it
    leaves and the error it returns are what `LegacyMachine` gives. */
module LegacyCpu {
  import opened Common
  import CallStack
  import Registers
  import LegacyMemory
  import LegacyMachine

  class CPU {
    var PC: Word
    var I: Word
    const Stack: array<Word>
    var SP: Byte
    var Memory: LegacyMemory.Memory
    const V: array<Byte>

    ghost predicate Valid()
      reads this, Stack, V
    {
      Stack.Length == CallStack.Depth && V.Length == Registers.Count && Memory.Valid()
    }

    ghost function State(): (s: LegacyMachine.State)
      requires Valid()
      reads this, Stack, V
      ensures s.Valid()
    {
      LegacyMachine.State(PC, I, CallStack.Stack(SP, Stack[..]), V[..], Memory)
    }

    /** NewCPU: PC = 0x200, I = 0, SP = 16, zeroed arrays, a copy of `m`. */
    constructor (m: LegacyMemory.Memory)
      requires m.Valid()
      ensures Valid() && State() == LegacyMachine.New(m)
      ensures fresh(Stack) && fresh(V)
    {
      PC := LegacyMachine.PCInit;
      I := 0;
      Stack := new Word[CallStack.Depth](_ => 0);
      SP := CallStack.SPInit;
      Memory := m;
      V := new Byte[Registers.Count](_ => 0);
      new;
      assert Stack[..] == CallStack.Empty().slots;
      assert V[..] == seq(Registers.Count, _ => 0);
    }

    /** Fetch: two reads of the byte at PC; it changes nothing. */
    method Fetch() returns (inst: Word, err: Status)
      requires Valid()
      ensures (inst, err) == LegacyMachine.Fetch(State())
    {
      var (hi, e1) := LegacyMemory.Read(Memory, PC);
      if e1 != Ok {
        return 0, e1;
      }
      // c.PC, not c.PC + 1; this read cannot fail once the first has succeeded
      var (lo, _) := LegacyMemory.Read(Memory, PC);
      return hi as int * 0x100 + lo, Ok;
    }

    method Push(data: Word) returns (err: Status)
      requires Valid()
      modifies this, Stack
      ensures Valid()
      ensures State() == old(State()).(stack := CallStack.Push(old(State()).stack, data).0)
      ensures err == CallStack.Push(old(State()).stack, data).1
    {
      SP := SubByte(SP, 1);  // c.SP--
      if SP >= CallStack.Depth {
        return Fail(StackLimit);
      }
      Stack[SP] := data;
      return Ok;
    }

    /** Pop: the guard refuses only SP above 16, so SP = 16 reaches
        `c.Stack[16]` and panics. */
    method Pop() returns (data: Word, err: Status)
      requires Valid()
      modifies this
      ensures Valid()
      ensures var (s, d, e) := CallStack.Pop(old(State()).stack);
              State() == old(State()).(stack := s) && data == d && err == e
    {
      if SP > CallStack.SPInit {
        return 0, Fail(EmptyStack);
      }
      if SP >= CallStack.Depth {
        return 0, Fail(IndexPanic);
      }
      data := Stack[SP];
      SP := SP + 1;
      return data, Ok;
    }

    // ---------------------------------------------------- instructions.go

    method Jump(inst: Word) returns (err: Status)
      requires Valid()
      modifies this
      ensures Valid()
      ensures LegacyMachine.Outcome(State(), err) == LegacyMachine.Jump(old(State()), inst)
    {
      if !CheckInst(inst, 0x1000) {
        return Fail(InvalidInstruction);
      }
      PC := inst % 0x1000;  // inst & 0x0FFF
      return Ok;
    }

    method Call(inst: Word) returns (err: Status)
      requires Valid()
      modifies this, Stack
      ensures Valid()
      ensures LegacyMachine.Outcome(State(), err) == LegacyMachine.Call(old(State()), inst)
    {
      if !CheckInst(inst, 0x2000) {
        return Fail(InvalidInstruction);
      }
      var addr := inst % 0x1000;
      err := Push(PC);
      if err != Ok {
        return err;
      }
      PC := addr;
      return Ok;
    }

    method SkipEqualVal(inst: Word) returns (err: Status)
      requires Valid()
      modifies this
      ensures Valid()
      ensures LegacyMachine.Outcome(State(), err) == LegacyMachine.SkipEqualVal(old(State()), inst)
    {
      if !CheckInst(inst, 0x3000) {
        return Fail(InvalidInstruction);
      }
      if V[X(inst)] == KK(inst) {
        PC := AddWord(PC, 1);  // c.PC++
      }
      return Ok;
    }

    method SkipNotEqualVal(inst: Word) returns (err: Status)
      requires Valid()
      modifies this
      ensures Valid()
      ensures LegacyMachine.Outcome(State(), err) == LegacyMachine.SkipNotEqualVal(old(State()), inst)
    {
      if !CheckInst(inst, 0x4000) {
        return Fail(InvalidInstruction);
      }
      if V[X(inst)] != KK(inst) {
        PC := AddWord(PC, 1);
      }
      return Ok;
    }

    method SkipEqualReg(inst: Word) returns (err: Status)
      requires Valid()
      modifies this
      ensures Valid()
      ensures LegacyMachine.Outcome(State(), err) == LegacyMachine.SkipEqualReg(old(State()), inst)
    {
      if !CheckInst(inst, 0x5000) {
        return Fail(InvalidInstruction);
      }
      if V[X(inst)] == V[Y(inst)] {
        PC := AddWord(PC, 1);
      }
      return Ok;
    }

    method LoadValue(inst: Word) returns (err: Status)
      requires Valid()
      modifies V
      ensures Valid()
      ensures LegacyMachine.Outcome(State(), err) == LegacyMachine.LoadValue(old(State()), inst)
    {
      if !CheckInst(inst, 0x6000) {
        return Fail(InvalidInstruction);
      }
      V[X(inst)] := KK(inst);
      return Ok;
    }

    method AddValue(inst: Word) returns (err: Status)
      requires Valid()
      modifies V
      ensures Valid()
      ensures LegacyMachine.Outcome(State(), err) == LegacyMachine.AddValue(old(State()), inst)
    {
      if !CheckInst(inst, 0x7000) {
        return Fail(InvalidInstruction);
      }
      var r := X(inst);
      V[r] := AddByte(V[r], KK(inst));
      return Ok;
    }

    method LoadReg(inst: Word) returns (err: Status)
      requires Valid()
      modifies V
      ensures Valid()
      ensures LegacyMachine.Outcome(State(), err) == LegacyMachine.LoadReg(old(State()), inst)
    {
      if !CheckInst(inst, 0x8000) || N(inst) != 0 {
        return Fail(InvalidInstruction);
      }
      V[X(inst)] := V[Y(inst)];
      return Ok;
    }

    method Or(inst: Word) returns (err: Status)
      requires Valid()
      modifies V
      ensures Valid()
      ensures LegacyMachine.Outcome(State(), err) == LegacyMachine.Or(old(State()), inst)
    {
      if !CheckInst(inst, 0x8000) || N(inst) != 1 {
        return Fail(InvalidInstruction);
      }
      var regX, regY := X(inst), Y(inst);
      V[regX] := BitOr(V[regX], V[regY]);
      return Ok;
    }

    method And(inst: Word) returns (err: Status)
      requires Valid()
      modifies V
      ensures Valid()
      ensures LegacyMachine.Outcome(State(), err) == LegacyMachine.And(old(State()), inst)
    {
      if !CheckInst(inst, 0x8000) || N(inst) != 2 {
        return Fail(InvalidInstruction);
      }
      var regX, regY := X(inst), Y(inst);
      V[regX] := BitAnd(V[regX], V[regY]);
      return Ok;
    }

    method Xor(inst: Word) returns (err: Status)
      requires Valid()
      modifies V
      ensures Valid()
      ensures LegacyMachine.Outcome(State(), err) == LegacyMachine.Xor(old(State()), inst)
    {
      if !CheckInst(inst, 0x8000) || N(inst) != 3 {
        return Fail(InvalidInstruction);
      }
      var regX, regY := X(inst), Y(inst);
      V[regX] := BitXor(V[regX], V[regY]);
      return Ok;
    }

    method Add(inst: Word) returns (err: Status)
      requires Valid()
      modifies V
      ensures Valid()
      ensures LegacyMachine.Outcome(State(), err) == LegacyMachine.Add(old(State()), inst)
    {
      if !CheckInst(inst, 0x8000) || N(inst) != 4 {
        return Fail(InvalidInstruction);
      }
      var regX, regY := X(inst), Y(inst);
      var result: Word := V[regX] as int + V[regY];  // uint16 sum
      V[regX] := result % 0x100;
      V[Registers.F] := if result > 255 then 1 else 0;
      return Ok;
    }

    method Sub(inst: Word) returns (err: Status)
      requires Valid()
      modifies V
      ensures Valid()
      ensures LegacyMachine.Outcome(State(), err) == LegacyMachine.Sub(old(State()), inst)
    {
      if !CheckInst(inst, 0x8000) || N(inst) != 5 {
        return Fail(InvalidInstruction);
      }
      var regX, regY := X(inst), Y(inst);
      V[Registers.F] := if V[regX] > V[regY] then 1 else 0;
      V[regX] := SubByte(V[regX], V[regY]);
      return Ok;
    }

    method ShiftRight(inst: Word) returns (err: Status)
      requires Valid()
      modifies V
      ensures Valid()
      ensures LegacyMachine.Outcome(State(), err) == LegacyMachine.ShiftRight(old(State()), inst)
    {
      if !CheckInst(inst, 0x8000) || N(inst) != 6 {
        return Fail(InvalidInstruction);
      }
      var regX := X(inst);
      V[Registers.F] := V[regX] % 2;  // Vx & 1
      V[regX] := V[regX] / 2;         // Vx >>= 1
      return Ok;
    }

    method SubN(inst: Word) returns (err: Status)
      requires Valid()
      modifies V
      ensures Valid()
      ensures LegacyMachine.Outcome(State(), err) == LegacyMachine.SubN(old(State()), inst)
    {
      if !CheckInst(inst, 0x8000) || N(inst) != 7 {
        return Fail(InvalidInstruction);
      }
      var regX, regY := X(inst), Y(inst);
      V[Registers.F] := if V[regX] < V[regY] then 1 else 0;
      V[regX] := SubByte(V[regY], V[regX]);
      return Ok;
    }

    method ShiftLeft(inst: Word) returns (err: Status)
      requires Valid()
      modifies V
      ensures Valid()
      ensures LegacyMachine.Outcome(State(), err) == LegacyMachine.ShiftLeft(old(State()), inst)
    {
      if !CheckInst(inst, 0x8000) || N(inst) != 0xE {
        return Fail(InvalidInstruction);
      }
      var regX := X(inst);
      V[Registers.F] := V[regX] / 128;          // Vx >> 7
      V[regX] := (V[regX] as int * 2) % 0x100;  // Vx <<= 1
      return Ok;
    }

    method SkipNotEqualReg(inst: Word) returns (err: Status)
      requires Valid()
      modifies this
      ensures Valid()
      ensures LegacyMachine.Outcome(State(), err) == LegacyMachine.SkipNotEqualReg(old(State()), inst)
    {
      if !CheckInst(inst, 0x9000) {
        return Fail(InvalidInstruction);
      }
      if V[X(inst)] != V[Y(inst)] {
        PC := AddWord(PC, 1);
      }
      return Ok;
    }

    method LoadI(inst: Word) returns (err: Status)
      requires Valid()
      modifies this
      ensures Valid()
      ensures LegacyMachine.Outcome(State(), err) == LegacyMachine.LoadI(old(State()), inst)
    {
      if !CheckInst(inst, 0xA000) {
        return Fail(InvalidInstruction);
      }
      I := inst % 0x1000;
      return Ok;
    }

    method JumpWithReg(inst: Word) returns (err: Status)
      requires Valid()
      modifies this
      ensures Valid()
      ensures LegacyMachine.Outcome(State(), err) == LegacyMachine.JumpWithReg(old(State()), inst)
    {
      if !CheckInst(inst, 0xB000) {
        return Fail(InvalidInstruction);
      }
      PC := AddWord(inst % 0x1000, V[0]);  // addr + uint16(c.V[0])
      return Ok;
    }
  }
}
