/** The root-level snapshot of the CPU (`cpu.go`, `instructions.go`) as
    functions on its state: PC, I, the call stack, the registers and the
    value-receiver memory of `memory.go`. It has no screen, timer or keypad,
    and no run loop.

    Its handlers open with the same guards as those of `src/` and compute the
    same results, except that the four skips advance PC by 1 instead of 2.
    Its Decode knows only the families 1..7 and 8xy0..8xy4, and its Fetch
    reads the byte at PC twice. */
module LegacyMachine {
  import opened Common
  import CallStack
  import Registers
  import Display
  import LegacyMemory
  import D = Decoder
  import H = Handlers
  import Machine
  import Interpreter

  /** PCInit, as in `src/`. */
  const PCInit: Word := 512

  datatype State = State(
    pc: Word,
    i: Word,
    stack: CallStack.Stack,
    v: Registers.Regs,
    mem: LegacyMemory.Memory)
  {
    ghost predicate Valid()
    {
      stack.Valid() && mem.Valid()
    }
  }

  /** The state after an operation and the error it returns. */
  datatype Outcome = Outcome(s: State, status: Status)

  /** NewCPU: PC = 0x200, I = 0, SP = 16, the zero stack and registers, and a
      copy of the memory passed in. */
  function New(mem: LegacyMemory.Memory): (s: State)
    requires mem.Valid()
    ensures s.Valid() && s.pc == 0x200 && s.i == 0 && s.stack.sp == 16 && s.mem == mem
    ensures s.stack.Contents() == []
    ensures forall k :: 0 <= k < Registers.Count ==> s.v[k] == 0
    ensures forall k :: 0 <= k < CallStack.Depth ==> s.stack.slots[k] == 0
  {
    State(PCInit, 0, CallStack.Empty(), seq(Registers.Count, _ => 0), mem)
  }

  // ------------------------------------------------------------------ Fetch

  /** Fetch: both bytes of the instruction are read from PC itself, so the
      word is the byte at PC repeated. Read never returns an error value, so
      the function's error branches are not reached; a PC past the array
      panics in the first read. */
  function Fetch(s: State): (r: (Word, Status))
    requires s.Valid()
    ensures s.pc < LegacyMemory.Size ==> r == (s.mem.memory[s.pc] as int * 0x101, Ok)
    ensures s.pc >= LegacyMemory.Size ==> r == (0, Fail(IndexPanic))
  {
    var (hi, e1) := LegacyMemory.Read(s.mem, s.pc);
    var (lo, e2) := LegacyMemory.Read(s.mem, s.pc);  // c.PC again
    var err := if e1 != Ok then e1 else e2;          // the first error, if any
    if err != Ok then (0, err)
    else (hi as int * 0x100 + lo, Ok)
  }

  /** This Fetch gives the word `src/` fetches from the same memory exactly
      when the byte after PC repeats the byte at PC. */
  lemma FetchAgreesIffBytesRepeat(s: State)
    requires s.Valid() && s.pc < LegacyMemory.Size - 1
    ensures Fetch(s) == Machine.Fetch(s.mem.memory, s.pc) <==> s.mem.memory[s.pc] == s.mem.memory[s.pc + 1]
  {
    var m := Machine.Fetch(s.mem.memory, s.pc);
    if Fetch(s) == m {
      assert m.0 % 0x100 == s.mem.memory[s.pc + 1];
    }
  }

  // ----------------------------------------------------------------- Decode

  /** Decode: a handler for the families 1..7 and for 8xy0..8xy4; every other
      word, including 0nnn, 8xy5 and up and 9nnn..Fnnn, is an error. */
  function Decode(inst: Word): (r: D.Decoded)
    ensures r.Dispatch? <==> 1 <= Family(inst) <= 7 || (Family(inst) == 8 && N(inst) <= 4)
  {
    match Family(inst)
    case 0x1 => D.Dispatch(D.Jump)
    case 0x2 => D.Dispatch(D.Call)
    case 0x3 => D.Dispatch(D.SkipEqualVal)
    case 0x4 => D.Dispatch(D.SkipNotEqualVal)
    case 0x5 => D.Dispatch(D.SkipEqualReg)
    case 0x6 => D.Dispatch(D.LoadValue)
    case 0x7 => D.Dispatch(D.AddValue)
    case 0x8 =>
      (match N(inst)
       case 0x0 => D.Dispatch(D.LoadReg)
       case 0x1 => D.Dispatch(D.Or)
       case 0x2 => D.Dispatch(D.And)
       case 0x3 => D.Dispatch(D.Xor)
       case 0x4 => D.Dispatch(D.Add)
       case _ => D.Reject)
    case _ => D.Reject
  }

  /** Where this Decode dispatches, it picks the handler `src/` Decode picks,
      and that handler's guard accepts the word. */
  lemma DecodeAgreesWithCurrent(inst: Word)
    requires Decode(inst).Dispatch?
    ensures D.Decode(inst) == Decode(inst)
    ensures D.Accepts(Decode(inst).op, inst)
  {
    match Family(inst)
    case 0x8 =>
    case _ =>
  }

  /** The handlers that exist in this snapshot. */
  predicate Implemented(op: D.Op)
  {
    op in {D.Jump, D.Call, D.SkipEqualVal, D.SkipNotEqualVal, D.SkipEqualReg,
           D.LoadValue, D.AddValue, D.LoadReg, D.Or, D.And, D.Xor, D.Add,
           D.Sub, D.ShiftRight, D.SubN, D.ShiftLeft,
           D.SkipNotEqualReg, D.LoadI, D.JumpWithReg}
  }

  /** Handlers that exist but that this Decode never dispatches to: 8xy5,
      8xy6, 8xy7, 8xyE, 9xy0, Annn and Bnnn. */
  lemma UnreachableHandlers(inst: Word)
    requires Decode(inst).Dispatch?
    ensures Implemented(Decode(inst).op)
    ensures Decode(inst).op !in {D.Sub, D.ShiftRight, D.SubN, D.ShiftLeft, D.SkipNotEqualReg, D.LoadI, D.JumpWithReg}
  {
    match Family(inst)
    case 0x8 =>
    case _ =>
  }

  // --------------------------------------------------------------- handlers

  function Invalid(s: State): Outcome
  {
    Outcome(s, Fail(InvalidInstruction))
  }

  /** The handler's guard decides the error, as in `src/`. */
  ghost predicate Guarded(op: D.Op, inst: Word, s: State, r: Outcome)
  {
    (!D.Accepts(op, inst) ==> r == Invalid(s)) &&
    (D.Accepts(op, inst) ==> r.status != Fail(InvalidInstruction))
  }

  /** `c.PC++`, wrapping as a `uint16`. */
  function Skip(s: State): State
  {
    s.(pc := AddWord(s.pc, 1))
  }

  /** 1nnn. */
  function Jump(s: State, inst: Word): (r: Outcome)
    requires s.Valid()
    ensures Guarded(D.Jump, inst, s, r) && r.s.Valid()
  {
    if !CheckInst(inst, 0x1000) then Invalid(s)
    else Outcome(s.(pc := NNN(inst)), Ok)
  }

  /** 2nnn: a failed push keeps the moved stack pointer and returns its error. */
  function Call(s: State, inst: Word): (r: Outcome)
    requires s.Valid()
    ensures Guarded(D.Call, inst, s, r) && r.s.Valid()
  {
    if !CheckInst(inst, 0x2000) then Invalid(s)
    else
      var (st, err) := CallStack.Push(s.stack, s.pc);
      if err != Ok then Outcome(s.(stack := st), err)
      else Outcome(s.(pc := NNN(inst), stack := st), Ok)
  }

  /** 3xkk: PC += 1 iff Vx == kk. */
  function SkipEqualVal(s: State, inst: Word): (r: Outcome)
    requires s.Valid()
    ensures Guarded(D.SkipEqualVal, inst, s, r) && r.s.Valid()
    ensures D.Accepts(D.SkipEqualVal, inst) ==>
              r.status == Ok && r.s == if s.v[X(inst)] == KK(inst) then s.(pc := (s.pc + 1) % 0x1_0000) else s
  {
    if !CheckInst(inst, 0x3000) then Invalid(s)
    else if s.v[X(inst)] == KK(inst) then Outcome(Skip(s), Ok)
    else Outcome(s, Ok)
  }

  /** 4xkk: PC += 1 iff Vx != kk. */
  function SkipNotEqualVal(s: State, inst: Word): (r: Outcome)
    requires s.Valid()
    ensures Guarded(D.SkipNotEqualVal, inst, s, r) && r.s.Valid()
    ensures D.Accepts(D.SkipNotEqualVal, inst) ==>
              r.status == Ok && r.s == if s.v[X(inst)] != KK(inst) then s.(pc := (s.pc + 1) % 0x1_0000) else s
  {
    if !CheckInst(inst, 0x4000) then Invalid(s)
    else if s.v[X(inst)] != KK(inst) then Outcome(Skip(s), Ok)
    else Outcome(s, Ok)
  }

  /** 5xy0: PC += 1 iff Vx == Vy. */
  function SkipEqualReg(s: State, inst: Word): (r: Outcome)
    requires s.Valid()
    ensures Guarded(D.SkipEqualReg, inst, s, r) && r.s.Valid()
    ensures D.Accepts(D.SkipEqualReg, inst) ==>
              r.status == Ok && r.s == if s.v[X(inst)] == s.v[Y(inst)] then s.(pc := (s.pc + 1) % 0x1_0000) else s
  {
    if !CheckInst(inst, 0x5000) then Invalid(s)
    else if s.v[X(inst)] == s.v[Y(inst)] then Outcome(Skip(s), Ok)
    else Outcome(s, Ok)
  }

  /** 9xy0: PC += 1 iff Vx != Vy. */
  function SkipNotEqualReg(s: State, inst: Word): (r: Outcome)
    requires s.Valid()
    ensures Guarded(D.SkipNotEqualReg, inst, s, r) && r.s.Valid()
    ensures D.Accepts(D.SkipNotEqualReg, inst) ==>
              r.status == Ok && r.s == if s.v[X(inst)] != s.v[Y(inst)] then s.(pc := (s.pc + 1) % 0x1_0000) else s
  {
    if !CheckInst(inst, 0x9000) then Invalid(s)
    else if s.v[X(inst)] != s.v[Y(inst)] then Outcome(Skip(s), Ok)
    else Outcome(s, Ok)
  }

  /** 6xkk. */
  function LoadValue(s: State, inst: Word): (r: Outcome)
    requires s.Valid()
    ensures Guarded(D.LoadValue, inst, s, r) && r.s.Valid()
  {
    if !CheckInst(inst, 0x6000) then Invalid(s)
    else Outcome(s.(v := Registers.LoadValue(s.v, X(inst), KK(inst))), Ok)
  }

  /** 7xkk. */
  function AddValue(s: State, inst: Word): (r: Outcome)
    requires s.Valid()
    ensures Guarded(D.AddValue, inst, s, r) && r.s.Valid()
  {
    if !CheckInst(inst, 0x7000) then Invalid(s)
    else Outcome(s.(v := Registers.AddValue(s.v, X(inst), KK(inst))), Ok)
  }

  /** The 8xy_ handlers: the family and low-nibble guard, then the register
      operation of `Registers`. */
  function Arith(s: State, inst: Word, nibble: nat, v: Registers.Regs): (r: Outcome)
    ensures r.status == Ok <==> CheckInst(inst, 0x8000) && N(inst) == nibble
    ensures r.status == Ok ==> r.s == s.(v := v)
    ensures r.status != Ok ==> r == Invalid(s)
  {
    if !CheckInst(inst, 0x8000) || N(inst) != nibble then Invalid(s)
    else Outcome(s.(v := v), Ok)
  }

  /** 8xy0. */
  function LoadReg(s: State, inst: Word): (r: Outcome)
    requires s.Valid()
    ensures Guarded(D.LoadReg, inst, s, r) && r.s.Valid()
  {
    Arith(s, inst, 0x0, Registers.LoadReg(s.v, X(inst), Y(inst)))
  }

  /** 8xy1. */
  function Or(s: State, inst: Word): (r: Outcome)
    requires s.Valid()
    ensures Guarded(D.Or, inst, s, r) && r.s.Valid()
  {
    Arith(s, inst, 0x1, Registers.Or(s.v, X(inst), Y(inst)))
  }

  /** 8xy2. */
  function And(s: State, inst: Word): (r: Outcome)
    requires s.Valid()
    ensures Guarded(D.And, inst, s, r) && r.s.Valid()
  {
    Arith(s, inst, 0x2, Registers.And(s.v, X(inst), Y(inst)))
  }

  /** 8xy3. */
  function Xor(s: State, inst: Word): (r: Outcome)
    requires s.Valid()
    ensures Guarded(D.Xor, inst, s, r) && r.s.Valid()
  {
    Arith(s, inst, 0x3, Registers.Xor(s.v, X(inst), Y(inst)))
  }

  /** 8xy4. */
  function Add(s: State, inst: Word): (r: Outcome)
    requires s.Valid()
    ensures Guarded(D.Add, inst, s, r) && r.s.Valid()
  {
    Arith(s, inst, 0x4, Registers.Add(s.v, X(inst), Y(inst)))
  }

  /** 8xy5. */
  function Sub(s: State, inst: Word): (r: Outcome)
    requires s.Valid()
    ensures Guarded(D.Sub, inst, s, r) && r.s.Valid()
  {
    Arith(s, inst, 0x5, Registers.Sub(s.v, X(inst), Y(inst)))
  }

  /** 8xy6. */
  function ShiftRight(s: State, inst: Word): (r: Outcome)
    requires s.Valid()
    ensures Guarded(D.ShiftRight, inst, s, r) && r.s.Valid()
  {
    Arith(s, inst, 0x6, Registers.ShiftRight(s.v, X(inst)))
  }

  /** 8xy7. */
  function SubN(s: State, inst: Word): (r: Outcome)
    requires s.Valid()
    ensures Guarded(D.SubN, inst, s, r) && r.s.Valid()
  {
    Arith(s, inst, 0x7, Registers.SubN(s.v, X(inst), Y(inst)))
  }

  /** 8xyE. */
  function ShiftLeft(s: State, inst: Word): (r: Outcome)
    requires s.Valid()
    ensures Guarded(D.ShiftLeft, inst, s, r) && r.s.Valid()
  {
    Arith(s, inst, 0xE, Registers.ShiftLeft(s.v, X(inst)))
  }

  /** Annn. */
  function LoadI(s: State, inst: Word): (r: Outcome)
    requires s.Valid()
    ensures Guarded(D.LoadI, inst, s, r) && r.s.Valid()
  {
    if !CheckInst(inst, 0xA000) then Invalid(s)
    else Outcome(s.(i := NNN(inst)), Ok)
  }

  /** Bnnn: PC = nnn + V0, unmasked. */
  function JumpWithReg(s: State, inst: Word): (r: Outcome)
    requires s.Valid()
    ensures Guarded(D.JumpWithReg, inst, s, r) && r.s.Valid()
  {
    if !CheckInst(inst, 0xB000) then Invalid(s)
    else Outcome(s.(pc := AddWord(NNN(inst), s.v[0])), Ok)
  }

  /** The handler named by `op`, for the handlers of this snapshot. */
  function Execute(op: D.Op, s: State, inst: Word): (r: Outcome)
    requires s.Valid() && Implemented(op)
    ensures Guarded(op, inst, s, r) && r.s.Valid()
  {
    match op
    case Jump => Jump(s, inst)
    case Call => Call(s, inst)
    case SkipEqualVal => SkipEqualVal(s, inst)
    case SkipNotEqualVal => SkipNotEqualVal(s, inst)
    case SkipEqualReg => SkipEqualReg(s, inst)
    case LoadValue => LoadValue(s, inst)
    case AddValue => AddValue(s, inst)
    case LoadReg => LoadReg(s, inst)
    case Or => Or(s, inst)
    case And => And(s, inst)
    case Xor => Xor(s, inst)
    case Add => Add(s, inst)
    case Sub => Sub(s, inst)
    case ShiftRight => ShiftRight(s, inst)
    case SubN => SubN(s, inst)
    case ShiftLeft => ShiftLeft(s, inst)
    case SkipNotEqualReg => SkipNotEqualReg(s, inst)
    case LoadI => LoadI(s, inst)
    case JumpWithReg => JumpWithReg(s, inst)
  }

  // ------------------------------------------ the snapshot against `src/`

  /** This state as a `src/` machine with a blank screen and a stopped timer. */
  function Current(s: State): (m: Machine.Machine)
    requires s.Valid()
    ensures m.Valid()
  {
    Machine.Machine(s.pc, s.i, s.stack, s.v, s.mem.memory, Display.Blank(), 0)
  }

  /** A `src/` outcome read back as a state of this snapshot. */
  function Back(o: Machine.Outcome): Outcome
    requires o.m.Valid()
  {
    Outcome(State(o.m.pc, o.m.i, o.m.stack, o.m.v, LegacyMemory.Memory(o.m.mem)), o.status)
  }

  predicate IsSkip(op: D.Op)
  {
    op in {D.SkipEqualVal, D.SkipNotEqualVal, D.SkipEqualReg, D.SkipNotEqualReg}
  }

  /** Every handler of this snapshot other than the skips has the effect its
      `src/` namesake has. */
  lemma HandlersAgreeWithCurrent(op: D.Op, s: State, inst: Word, host: H.Host)
    requires s.Valid() && Implemented(op) && !IsSkip(op)
    ensures Back(Interpreter.Execute(op, Current(s), inst, host)) == Execute(op, s, inst)
  {
  }

  /** A skip that is taken moves PC one byte on, where `src/` moves it two;
      one not taken, or a refused word, has the same effect in both. */
  lemma SkipsAdvanceOne(op: D.Op, s: State, inst: Word, host: H.Host)
    requires s.Valid() && IsSkip(op)
    ensures var cur := Back(Interpreter.Execute(op, Current(s), inst, host));
            var r := Execute(op, s, inst);
            r.status == cur.status &&
            (r.s == cur.s || (r.s == Skip(s) && cur.s == s.(pc := AddWord(s.pc, 2))))
  {
  }

  /** From a fresh CPU with V3 = 10, a 33kk leaves PC at PCInit + 1 when kk
      is 10 and at PCInit otherwise; 23FF is refused and PC stays at PCInit. */
  lemma SkipFromNew(mem: LegacyMemory.Memory, kk: Byte)
    requires mem.Valid()
    ensures var s := New(mem).(v := New(mem).v[3 := 10]);
            var r := SkipEqualVal(s, 0x3300 + kk);
            r.status == Ok && r.s.pc == if kk == 10 then PCInit + 1 else PCInit
    ensures var s := New(mem).(v := New(mem).v[3 := 10]);
            var r := SkipEqualVal(s, 0x23FF);
            r.status == Fail(InvalidInstruction) && r.s.pc == PCInit
  {
    var inst := 0x3300 + kk;
    assert X(inst) == 3 && KK(inst) == kk && CheckInst(inst, 0x3000);
  }

  /** A call from a fresh CPU stores 0x200 in the last slot and jumps. */
  lemma CallFromNew(mem: LegacyMemory.Memory, inst: Word)
    requires mem.Valid() && CheckInst(inst, 0x2000)
    ensures var r := Call(New(mem), inst);
            r.status == Ok && r.s.pc == NNN(inst) && r.s.stack.sp == 15 && r.s.stack.slots[15] == 0x200
  {
  }
}
