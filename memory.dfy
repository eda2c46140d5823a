/** The 4096-byte store of `src/memory.go`: a 12-bit bounds check in front of a
    fixed array, written in place. */
module MemoryUnit {
  import opened Common

  const Size: nat := 4096

  /** An address is valid when no bit above bit 11 is set: `addr & 0xF000 == 0`. */
  predicate InRange(addr: Word)
  {
    addr / 0x1000 == 0
  }

  /** Read semantics on the store's contents: the byte, or 0 and an error. */
  function Load(cells: seq<Byte>, addr: Word): (r: (Byte, Status))
    requires |cells| == Size
    ensures r.1 == Ok <==> addr < Size
    ensures addr < Size ==> r.0 == cells[addr]
    ensures addr >= Size ==> r == (0, Fail(OutOfBounds))
  {
    if !InRange(addr) then (0, Fail(OutOfBounds)) else (cells[addr], Ok)
  }

  /** Write semantics on the store's contents: the new contents and the error. */
  function Store(cells: seq<Byte>, data: Byte, addr: Word): (r: (seq<Byte>, Status))
    requires |cells| == Size
    ensures |r.0| == Size
    ensures r.1 == Ok <==> addr < Size
    ensures r.1 != Ok ==> r == (cells, Fail(OutOfBounds))
    ensures forall k :: 0 <= k < Size && k != addr ==> r.0[k] == cells[k]
    ensures addr < Size ==> r.0[addr] == data
  {
    if !InRange(addr) then (cells, Fail(OutOfBounds)) else (cells[addr := data], Ok)
  }

  /** A successful Write followed by a Read of the same address returns the byte written. */
  lemma ReadAfterWrite(cells: seq<Byte>, data: Byte, addr: Word)
    requires |cells| == Size
    requires Store(cells, data, addr).1 == Ok
    ensures Load(Store(cells, data, addr).0, addr) == (data, Ok)
  {
  }

  /** A Write never disturbs a Read of another address, whether or not it succeeds. */
  lemma ReadOtherAfterWrite(cells: seq<Byte>, data: Byte, addr: Word, other: Word)
    requires |cells| == Size && other != addr
    ensures Load(Store(cells, data, addr).0, other) == Load(cells, other)
  {
  }

  /** The `Memory` struct: its one field is the `[4096]byte` array. */
  class Memory {
    const memory: array<Byte>

    ghost predicate Valid()
    {
      memory.Length == Size
    }

    /** The Go zero value `Memory{}`: every byte is 0. */
    constructor ()
      ensures Valid() && fresh(memory)
      ensures forall k :: 0 <= k < Size ==> memory[k] == 0
    {
      memory := new Byte[Size](_ => 0);
    }

    /** Write stores `data` at `addr` when the address is in range and changes nothing otherwise. */
    method Write(data: Byte, addr: Word) returns (err: Status)
      requires Valid()
      modifies memory
      ensures (memory[..], err) == Store(old(memory[..]), data, addr)
    {
      var msb := addr / 0x1000;  // addr & 0xF000
      if msb != 0 {
        return Fail(OutOfBounds);
      }
      memory[addr] := data;
      return Ok;
    }

    /** Read returns the byte at `addr`, or 0 with an error; it changes nothing. */
    method Read(addr: Word) returns (b: Byte, err: Status)
      requires Valid()
      ensures (b, err) == Load(memory[..], addr)
    {
      var msb := addr / 0x1000;  // addr & 0xF000
      if msb != 0 {
        return 0, Fail(OutOfBounds);
      }
      return memory[addr], Ok;
    }
  }
}
