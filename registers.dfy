/** The register-file transfers of the 6xkk, 7xkk and 8xy_ instructions, on the
    sixteen `uint8` registers V0..VF. Both CPU versions run these same
    statements; each function performs them in the handler's order, so VF is
    written before or after Vx exactly as the Go code does, and a flag written
    first is what a later read of VF (x or y = F) sees. */
module Registers {
  import opened Common

  const Count: nat := 16
  /** VF, the flag register. */
  const F: nat := 15

  type Regs = v: seq<Byte> | |v| == Count witness seq(Count, _ => 0)

  /** 0 or 1 as a register value. */
  function Flag(b: bool): Byte
  {
    if b then 1 else 0
  }

  /** All registers other than `x` and VF keep their values. */
  ghost predicate OthersKept(r: Regs, v: Regs, x: nat)
  {
    forall k :: 0 <= k < F && k != x ==> r[k] == v[k]
  }

  /** 6xkk: Vx = kk. */
  function LoadValue(v: Regs, x: nat, kk: Byte): (r: Regs)
    requires x < Count
    ensures r[x] == kk
    ensures forall k :: 0 <= k < Count && k != x ==> r[k] == v[k]
  {
    v[x := kk]
  }

  /** 7xkk: Vx = Vx + kk, wrapping at 256; VF is not touched. */
  function AddValue(v: Regs, x: nat, kk: Byte): (r: Regs)
    requires x < Count
    ensures v[x] as int + kk < 256 ==> r[x] == v[x] as int + kk
    ensures v[x] as int + kk >= 256 ==> r[x] == v[x] as int + kk - 256
    ensures forall k :: 0 <= k < Count && k != x ==> r[k] == v[k]
  {
    v[x := AddByte(v[x], kk)]
  }

  /** 8xy0: Vx = Vy. */
  function LoadReg(v: Regs, x: nat, y: nat): (r: Regs)
    requires x < Count && y < Count
    ensures r[x] == v[y]
    ensures forall k :: 0 <= k < Count && k != x ==> r[k] == v[k]
  {
    v[x := v[y]]
  }

  /** 8xy1: Vx = Vx OR Vy. */
  function Or(v: Regs, x: nat, y: nat): (r: Regs)
    requires x < Count && y < Count
    ensures r[x] == BitOr(v[x], v[y])
    ensures forall k :: 0 <= k < Count && k != x ==> r[k] == v[k]
  {
    v[x := BitOr(v[x], v[y])]
  }

  /** 8xy2: Vx = Vx AND Vy. */
  function And(v: Regs, x: nat, y: nat): (r: Regs)
    requires x < Count && y < Count
    ensures r[x] == BitAnd(v[x], v[y])
    ensures forall k :: 0 <= k < Count && k != x ==> r[k] == v[k]
  {
    v[x := BitAnd(v[x], v[y])]
  }

  /** 8xy3: Vx = Vx XOR Vy. */
  function Xor(v: Regs, x: nat, y: nat): (r: Regs)
    requires x < Count && y < Count
    ensures r[x] == BitXor(v[x], v[y])
    ensures forall k :: 0 <= k < Count && k != x ==> r[k] == v[k]
  {
    v[x := BitXor(v[x], v[y])]
  }

  /** 8xy4: the 16-bit sum is stored truncated to 8 bits in Vx, then VF is set to
      1 iff the sum exceeds 255. With x = F the flag overwrites the sum. */
  function Add(v: Regs, x: nat, y: nat): (r: Regs)
    requires x < Count && y < Count
    ensures r[F] == 1 <==> v[x] as int + v[y] > 255
    ensures r[F] == 0 <==> v[x] as int + v[y] <= 255
    ensures x != F ==> r[x] as int + 256 * (r[F] as int) == v[x] as int + v[y]
    ensures OthersKept(r, v, x)
  {
    var result: Word := v[x] as int + v[y];
    v[x := result % 0x100][F := Flag(result > 255)]
  }

  /** 8xy5: VF is first set to 1 iff Vx > Vy (strictly); then Vx = Vx - Vy,
      wrapping, computed from the registers as they are after the flag was written. */
  function Sub(v: Regs, x: nat, y: nat): (r: Regs)
    requires x < Count && y < Count
    ensures x != F ==> (r[F] == 1 <==> v[x] > v[y]) && (r[F] == 0 <==> v[x] <= v[y])
    ensures x != F && y != F ==> r[x] == if v[x] >= v[y] then v[x] as int - v[y] else 256 + v[x] as int - v[y]
    ensures x != F && y == F ==> r[x] == SubByte(v[x], r[F])
    ensures x == F ==> r[F] == SubByte(Flag(v[F] > v[y]), if y == F then Flag(v[F] > v[y]) else v[y])
    ensures OthersKept(r, v, x)
  {
    var v1 := v[F := Flag(v[x] > v[y])];
    v1[x := SubByte(v1[x], v1[y])]
  }

  /** 8xy7: VF is first set to 1 iff Vx < Vy; then Vx = Vy - Vx, wrapping, from
      the registers as they are after the flag was written. */
  function SubN(v: Regs, x: nat, y: nat): (r: Regs)
    requires x < Count && y < Count
    ensures x != F ==> (r[F] == 1 <==> v[x] < v[y]) && (r[F] == 0 <==> v[x] >= v[y])
    ensures x != F && y != F ==> r[x] == if v[y] >= v[x] then v[y] as int - v[x] else 256 + v[y] as int - v[x]
    ensures x != F && y == F ==> r[x] == SubByte(r[F], v[x])
    ensures x == F ==> r[F] == SubByte(if y == F then Flag(v[F] < v[y]) else v[y], Flag(v[F] < v[y]))
    ensures OthersKept(r, v, x)
  {
    var v1 := v[F := Flag(v[x] < v[y])];
    v1[x := SubByte(v1[y], v1[x])]
  }

  /** 8xy6: VF = Vx AND 1, then Vx >>= 1 (on the register after the flag was
      written; y is ignored). */
  function ShiftRight(v: Regs, x: nat): (r: Regs)
    requires x < Count
    ensures x != F ==> r[x] as int * 2 + r[F] == v[x] && r[F] <= 1
    ensures x == F ==> r[F] == 0
    ensures OthersKept(r, v, x)
  {
    var v1 := v[F := v[x] % 2];   // Vx & 1
    v1[x := v1[x] / 2]            // Vx >> 1
  }

  /** 8xyE: VF = Vx >> 7, the bit about to be shifted out, then Vx <<= 1,
      wrapping (on the register after the flag was written; y is ignored). */
  function ShiftLeft(v: Regs, x: nat): (r: Regs)
    requires x < Count
    ensures x != F ==> r[F] as int * 256 + r[x] == v[x] as int * 2 && r[F] <= 1
    ensures x == F ==> r[F] == 2 * (v[F] / 128)
    ensures OthersKept(r, v, x)
  {
    var v1 := v[F := v[x] / 128];      // Vx >> 7
    v1[x := (v1[x] as int * 2) % 0x100]       // Vx << 1, truncated to 8 bits
  }

  /** The register values the handler tests expect (8xy4, 8xy5, 8xy7, 8xy6, 8xyE, 7xkk). */
  lemma TestVectors(v: Regs)
    ensures var w := v[0xA := 255][0x2 := 255];
            Add(w, 0xA, 0x2)[0xA] == 0xFE && Add(w, 0xA, 0x2)[F] == 1
    ensures var w := v[0x7 := 187][0xB := 25];
            Add(w, 0x7, 0xB)[0x7] == 212 && Add(w, 0x7, 0xB)[F] == 0
    ensures var w := v[0x7 := 187][0xB := 25];
            Sub(w, 0x7, 0xB)[0x7] == 162 && Sub(w, 0x7, 0xB)[F] == 1
    ensures var w := v[0xA := 13][0x2 := 160];
            Sub(w, 0xA, 0x2)[0xA] == 109 && Sub(w, 0xA, 0x2)[F] == 0
    ensures var w := v[0xA := 13][0x2 := 160];
            SubN(w, 0xA, 0x2)[0xA] == 147 && SubN(w, 0xA, 0x2)[F] == 1
    ensures var w := v[0x7 := 187][0xB := 25];
            SubN(w, 0x7, 0xB)[0x7] == 0x5E && SubN(w, 0x7, 0xB)[F] == 0
    ensures ShiftRight(v[0x7 := 209], 0x7)[0x7] == 104 && ShiftRight(v[0x7 := 209], 0x7)[F] == 1
    ensures ShiftLeft(v[0xA := 255], 0xA)[0xA] == 0xFE && ShiftLeft(v[0xA := 255], 0xA)[F] == 1
    ensures AddValue(v[0xE := 15], 0xE, 0xEB)[0xE] == 0xFA
  {
  }
}
