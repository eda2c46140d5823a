/** Machine words, the error taxonomy and the instruction-word fields shared by
    every part of the interpreter (the current `src/` package and the older
    root-level snapshot alike).

    Go's `uint8` and `uint16` are bounded integers here; every place where the
    Go code wraps around is written out as `% 0x100` or `% 0x1_0000`. The
    masks and shifts that pick the fields of an instruction word are written
    as the equivalent divisions and remainders by powers of two
    (`(inst & 0x0F00) >> 8` is `(inst / 0x100) % 0x10`). */
module Common {

  /** Go's `byte`/`uint8`. */
  type Byte = b: int | 0 <= b < 0x100
  /** Go's `uint16`: instruction words, addresses, PC and I. */
  type Word = w: int | 0 <= w < 0x1_0000

  /** The reasons an operation returns a non-nil Go `error`, as tags. */
  datatype Error =
    | OutOfBounds         // Memory.Write/Read: the address has bits set above bit 11
    | InvalidInstruction  // Decode or a handler's guard rejects the instruction word
    | StackLimit          // Push: the stack pointer moved past the last slot
    | EmptyStack          // Pop: the stack pointer is above its initial value
    | InvalidGlyph        // SetISprite: V[x] names no hexadecimal glyph
    | KeypadError         // Input.IsPressed or Input.WaitForKey reported an error
    | ClearError          // Graphics.ClearScreen reported an error
    | IndexPanic          // Go runtime panic: an array index out of range aborts the program

  /** A Go `error` result: `nil` or a failure. */
  datatype Status = Ok | Fail(error: Error)

  /** `uint8` addition and subtraction. */
  function AddByte(a: Byte, b: Byte): Byte { (a + b) % 0x100 }
  function SubByte(a: Byte, b: Byte): Byte { (a - b) % 0x100 }
  /** `uint16` addition. */
  function AddWord(a: Word, b: Word): Word { (a + b) % 0x1_0000 }

  /** `a & b`, `a | b` and `a ^ b` on `uint8`. */
  function BitAnd(a: Byte, b: Byte): Byte { ((a as bv8) & (b as bv8)) as int }
  function BitOr(a: Byte, b: Byte): Byte { ((a as bv8) | (b as bv8)) as int }
  function BitXor(a: Byte, b: Byte): Byte { ((a as bv8) ^ (b as bv8)) as int }

  /** The top nibble of an instruction word (`inst & 0xF000` is `Family(inst) * 0x1000`). */
  function Family(inst: Word): (f: nat)
    ensures f < 0x10
  {
    inst / 0x1000
  }

  /** CheckInst: the top nibble of the word matches the expected family `0x?000`,
      that is, the word lies in the block of 4096 words that starts at `expected`. */
  predicate CheckInst(inst: Word, expected: Word): (b: bool)
    ensures b <==> expected % 0x1000 == 0 && expected <= inst < expected + 0x1000
  {
    Family(inst) * 0x1000 == expected
  }

  /** The register nibble x of `_x__`: `(inst & 0x0F00) >> 8`. */
  function X(inst: Word): (x: nat)
    ensures x < 0x10
  {
    (inst / 0x100) % 0x10
  }

  /** The register nibble y of `__y_`: `(inst & 0x00F0) >> 4`. */
  function Y(inst: Word): (y: nat)
    ensures y < 0x10
  {
    (inst / 0x10) % 0x10
  }

  /** The low nibble n of `___n`: `inst & 0x000F`. */
  function N(inst: Word): (n: nat)
    ensures n < 0x10
  {
    inst % 0x10
  }

  /** The low byte kk (or selector byte) of `__kk`: `inst & 0x00FF`. */
  function KK(inst: Word): Byte
  {
    inst % 0x100
  }

  /** The 12-bit address nnn of `_nnn`: `inst & 0x0FFF`. */
  function NNN(inst: Word): (a: Word)
    ensures a < 0x1000
  {
    inst % 0x1000
  }

  /** The four fields put back together give the word. */
  lemma FieldsRebuildWord(inst: Word)
    ensures inst == Family(inst) * 0x1000 + X(inst) * 0x100 + KK(inst)
    ensures KK(inst) == Y(inst) * 0x10 + N(inst)
    ensures NNN(inst) == X(inst) * 0x100 + KK(inst)
  {
  }

  /** The fields of the big-endian word made of two bytes. */
  lemma FieldsOfBytes(hi: Byte, lo: Byte)
    ensures var w := hi * 0x100 + lo;
            Family(w) == hi / 0x10 && X(w) == hi % 0x10 && KK(w) == lo &&
            Y(w) == lo / 0x10 && N(w) == lo % 0x10 && NNN(w) == (hi % 0x10) * 0x100 + lo
  {
    var w := hi * 0x100 + lo;
    var q, r := hi / 0x10, hi % 0x10;
    assert w == q * 0x1000 + r * 0x100 + lo;
    assert w / 0x1000 == q;
    assert w % 0x1000 == r * 0x100 + lo;
    assert w / 0x100 == hi;
    assert w % 0x100 == lo;
    assert w / 0x10 == hi * 0x10 + lo / 0x10;
  }
}
