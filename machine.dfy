/** The machine state of the `src/` CPU as a value, for the reference semantics
    of its operations: PC, I, the call stack, the registers, the memory the CPU
    shares with the screen, the screen and the delay timer's counter.

    This module also holds the parts of `src/cpu.go` that compute a value:
    construction, `Fetch`, the sprite table that `Init` writes and what `Init`
    and `LoadProgram` leave in memory. */
module Machine {
  import opened Common
  import MemoryUnit
  import CallStack
  import Registers
  import Display
  import DelayTimer

  /** PCInit: programs are loaded at 0x200 and start there. */
  const PCInit: Word := 512

  datatype Machine = Machine(
    pc: Word,
    i: Word,
    stack: CallStack.Stack,
    v: Registers.Regs,
    mem: seq<Byte>,
    screen: Display.Pixels,
    dt: DelayTimer.Uint)
  {
    ghost predicate Valid()
    {
      stack.Valid() && |mem| == MemoryUnit.Size && Display.IsScreen(screen)
    }
  }

  /** A CPU operation's effect: the state afterwards and the error it returns.
      As in Go, whatever was changed before an error was detected stays changed. */
  datatype Outcome = Outcome(m: Machine, status: Status)

  /** NewCPU over existing memory, screen and timer: PC = 0x200, I = 0,
      SP = 16 and the zero value for the stack and the registers. */
  function New(mem: seq<Byte>, screen: Display.Pixels, dt: DelayTimer.Uint): (m: Machine)
    requires |mem| == MemoryUnit.Size && Display.IsScreen(screen)
    ensures m.Valid() && m.pc == 0x200 && m.i == 0 && m.stack.sp == 16
    ensures m.stack.Contents() == []
    ensures forall k :: 0 <= k < Registers.Count ==> m.v[k] == 0
    ensures forall k :: 0 <= k < CallStack.Depth ==> m.stack.slots[k] == 0
    ensures m.mem == mem && m.screen == screen && m.dt == dt
  {
    Machine(PCInit, 0, CallStack.Empty(), seq(Registers.Count, _ => 0), mem, screen, dt)
  }

  // ------------------------------------------------------------------ Fetch

  /** Fetch: the big-endian word at PC and PC + 1 (the second address wraps as
      a `uint16`). The first failing read decides the error and the word is 0. */
  function Fetch(mem: seq<Byte>, pc: Word): (r: (Word, Status))
    requires |mem| == MemoryUnit.Size
    ensures r.1 == Ok <==> pc < MemoryUnit.Size - 1
    ensures r.1 != Ok ==> r == (0, Fail(OutOfBounds))
    ensures r.1 == Ok ==> r.0 / 0x100 == mem[pc] && r.0 % 0x100 == mem[pc + 1]
  {
    var (hi, e1) := MemoryUnit.Load(mem, pc);
    if e1 != Ok then (0, e1)
    else
      var (lo, e2) := MemoryUnit.Load(mem, AddWord(pc, 1));
      if e2 != Ok then (0, e2)
      else (hi as int * 0x100 + lo, Ok)
  }

  /** The instruction fields of a fetched word come straight from its two bytes. */
  lemma FetchFields(mem: seq<Byte>, pc: Word)
    requires |mem| == MemoryUnit.Size && Fetch(mem, pc).1 == Ok
    ensures var inst := Fetch(mem, pc).0;
            Family(inst) == mem[pc] / 0x10 && X(inst) == mem[pc] % 0x10 &&
            KK(inst) == mem[pc + 1] && Y(inst) == mem[pc + 1] / 0x10 && N(inst) == mem[pc + 1] % 0x10 &&
            NNN(inst) == (mem[pc] % 0x10) * 0x100 + mem[pc + 1] as int
  {
    FieldsOfBytes(mem[pc], mem[pc + 1]);
  }

  // ------------------------------------------------------------------- Init

  /** A font glyph: five rows of eight pixels. */
  type Glyph = s: seq<Byte> | |s| == 5 witness [0, 0, 0, 0, 0]

  /** The hexadecimal glyphs 0..F, as `Init` lists them. */
  const Glyphs: seq<Glyph> := [
    [0xF0, 0x90, 0x90, 0x90, 0xF0],  // 0
    [0x20, 0x60, 0x20, 0x20, 0x70],  // 1
    [0xF0, 0x10, 0xF0, 0x80, 0xF0],  // 2
    [0xF0, 0x10, 0xF0, 0x10, 0xF0],  // 3
    [0x90, 0x90, 0xF0, 0x10, 0x10],  // 4
    [0xF0, 0x80, 0xF0, 0x10, 0xF0],  // 5
    [0xF0, 0x80, 0xF0, 0x90, 0xF0],  // 6
    [0xF0, 0x10, 0x20, 0x40, 0x40],  // 7
    [0xF0, 0x90, 0xF0, 0x90, 0xF0],  // 8
    [0xF0, 0x90, 0xF0, 0x10, 0xF0],  // 9
    [0xF0, 0x90, 0xF0, 0x90, 0x90],  // A
    [0xE0, 0x90, 0xE0, 0x90, 0xE0],  // B
    [0xF0, 0x80, 0x80, 0x80, 0xF0],  // C
    [0xE0, 0x90, 0x90, 0x90, 0xE0],  // D
    [0xF0, 0x80, 0xF0, 0x80, 0xF0],  // E
    [0xF0, 0x80, 0xF0, 0x80, 0x80]   // F
  ]

  /** writeSprite: the loop writes every row to `addr + 0`, so the cell ends up
      holding the last row and `addr + 1 .. addr + 4` are left alone. The write
      errors are dropped. */
  function WriteSpriteFrom(mem: seq<Byte>, sprite: seq<Byte>, addr: Word, k: nat): (r: seq<Byte>)
    requires |mem| == MemoryUnit.Size && k <= |sprite|
    ensures |r| == MemoryUnit.Size
    ensures forall a :: 0 <= a < MemoryUnit.Size && a != addr ==> r[a] == mem[a]
    ensures addr < MemoryUnit.Size && k < |sprite| ==> r[addr] == sprite[|sprite| - 1]
    decreases |sprite| - k
  {
    if k == |sprite| then mem
    else WriteSpriteFrom(MemoryUnit.Store(mem, sprite[k], addr).0, sprite, addr, k + 1)
  }

  /** Init's loop from glyph g on, with the address 5g it has reached. */
  function InitFrom(mem: seq<Byte>, g: nat): (r: seq<Byte>)
    requires |mem| == MemoryUnit.Size && g <= 16
    ensures |r| == MemoryUnit.Size
    ensures forall a :: 0 <= a < 5 * g ==> r[a] == mem[a]
    ensures forall a :: 5 * 16 <= a < MemoryUnit.Size ==> r[a] == mem[a]
    decreases 16 - g
  {
    if g == 16 then mem
    else InitFrom(WriteSpriteFrom(mem, Glyphs[g], g * 5, 0), g + 1)
  }

  /** writeSprite leaves the last row at `addr` and nothing else changed. */
  lemma {:induction false} WriteSpriteEffect(mem: seq<Byte>, sprite: seq<Byte>, addr: Word, k: nat)
    requires |mem| == MemoryUnit.Size && k < |sprite| && addr < MemoryUnit.Size
    ensures WriteSpriteFrom(mem, sprite, addr, k) == mem[addr := sprite[|sprite| - 1]]
    decreases |sprite| - k
  {
    var mem1 := MemoryUnit.Store(mem, sprite[k], addr).0;
    assert mem1 == mem[addr := sprite[k]];
    if k + 1 < |sprite| {
      WriteSpriteEffect(mem1, sprite, addr, k + 1);
      assert mem1[addr := sprite[|sprite| - 1]] == mem[addr := sprite[|sprite| - 1]];
    }
  }

  /** Init leaves at 5n the last row of glyph n, for each n from g on, and
      changes no other address. */
  lemma {:induction false} InitEffect(mem: seq<Byte>, g: nat)
    requires |mem| == MemoryUnit.Size && g <= 16
    ensures forall a :: 0 <= a < MemoryUnit.Size ==>
              InitFrom(mem, g)[a] == if a % 5 == 0 && g <= a / 5 < 16 then Glyphs[a / 5][4] else mem[a]
    decreases 16 - g
  {
    if g < 16 {
      WriteSpriteEffect(mem, Glyphs[g], g * 5, 0);
      InitEffect(WriteSpriteFrom(mem, Glyphs[g], g * 5, 0), g + 1);
    }
  }

  // ------------------------------------------------------------ LoadProgram

  /** LoadProgram's loop from byte k on: `program[k]` goes to `0x200 + k`
      (a `uint16` sum), stopping at the first failing write. */
  function LoadFrom(mem: seq<Byte>, program: seq<Byte>, k: nat): (r: (seq<Byte>, Status))
    requires |mem| == MemoryUnit.Size && k <= |program|
    ensures |r.0| == MemoryUnit.Size
    ensures r.1 == Ok || r.1 == Fail(OutOfBounds)
    decreases |program| - k
  {
    if k == |program| then (mem, Ok)
    else
      var (mem', err) := MemoryUnit.Store(mem, program[k], AddWord(PCInit, k % 0x1_0000));
      if err != Ok then (mem', err) else LoadFrom(mem', program, k + 1)
  }

  /** The program is copied to 0x200 onwards; it fails exactly when it is
      longer than the 3584 bytes between 0x200 and the end of memory, and then
      the bytes that fit are kept. */
  lemma {:induction false} LoadProgramEffect(mem: seq<Byte>, program: seq<Byte>, k: nat)
    requires |mem| == MemoryUnit.Size && k <= |program| && 0x200 + k <= MemoryUnit.Size
    ensures LoadFrom(mem, program, k).1 == if |program| <= 3584 then Ok else Fail(OutOfBounds)
    ensures forall a :: 0 <= a < MemoryUnit.Size ==>
              LoadFrom(mem, program, k).0[a] == if 0x200 + k <= a < 0x200 + |program| then program[a - 0x200] else mem[a]
    decreases |program| - k
  {
    if k < |program| {
      assert AddWord(PCInit, k % 0x1_0000) == 0x200 + k;
      if 0x200 + k < MemoryUnit.Size {
        var mem1 := MemoryUnit.Store(mem, program[k], 0x200 + k).0;
        LoadProgramEffect(mem1, program, k + 1);
      }
    }
  }
}
