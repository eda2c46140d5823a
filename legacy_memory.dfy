/** The `Memory` struct of the root-level `memory.go`, the older snapshot of
    the memory unit. Both methods have a value receiver: they work on a copy
    of the 4096-byte array, so `Write` changes nothing its caller can see.
    Neither checks the address; an index past the array makes Go panic,
    which is the IndexPanic error here. */
module LegacyMemory {
  import opened Common

  const Size: nat := 4096

  datatype Memory = Memory(memory: seq<Byte>)
  {
    ghost predicate Valid()
    {
      |memory| == Size
    }
  }

  /** The zero value `Memory{}`. */
  function Zero(): (m: Memory)
    ensures m.Valid() && forall a :: 0 <= a < Size ==> m.memory[a] == 0
  {
    Memory(seq(Size, _ => 0))
  }

  /** Read: the byte at `addr`, never an error value; past the array, a panic. */
  function Read(m: Memory, addr: Word): (r: (Byte, Status))
    requires m.Valid()
    ensures r.1 == Ok <==> addr < Size
    ensures addr < Size ==> r.0 == m.memory[addr]
    ensures addr >= Size ==> r == (0, Fail(IndexPanic))
  {
    if addr >= Size then (0, Fail(IndexPanic)) else (m.memory[addr], Ok)
  }

  /** Write: the store goes into the receiver's copy, which is dropped on
      return. The result is the caller's memory afterwards and the error. */
  function Write(m: Memory, data: Byte, addr: Word): (r: (Memory, Status))
    requires m.Valid()
    ensures r.0 == m
    ensures r.1 == Ok <==> addr < Size
    ensures addr >= Size ==> r.1 == Fail(IndexPanic)
  {
    if addr >= Size then (m, Fail(IndexPanic))
    else
      var receiver := m.(memory := m.memory[addr := data]);
      assert receiver.memory[addr] == data;
      (m, Ok)
  }

  /** A byte written to the zero memory is not there to be read back: the
      read still gives 0, whatever was written. */
  lemma WriteIsLost(data: Byte, addr: Word)
    requires addr < Size
    ensures Write(Zero(), data, addr).1 == Ok
    ensures Read(Write(Zero(), data, addr).0, addr) == (0, Ok)
  {
  }

  /** A caller's sequence of writes, stopping at the first that panics. */
  function Writes(m: Memory, data: seq<Byte>, addrs: seq<Word>): (r: (Memory, Status))
    requires m.Valid() && |data| == |addrs|
    ensures r.1 == Ok <==> forall k :: 0 <= k < |addrs| ==> addrs[k] < Size
    ensures r.1 != Ok ==> r.1 == Fail(IndexPanic)
    decreases |data|
  {
    if data == [] then (m, Ok)
    else
      var (m', err) := Write(m, data[0], addrs[0]);
      if err != Ok then (m', err) else Writes(m', data[1..], addrs[1..])
  }

  /** However many writes a caller makes, its memory stays as it was. */
  lemma {:induction false} WritesChangeNothing(m: Memory, data: seq<Byte>, addrs: seq<Word>)
    requires m.Valid() && |data| == |addrs|
    ensures Writes(m, data, addrs).0 == m
    decreases |data|
  {
    if data != [] {
      WritesChangeNothing(m, data[1..], addrs[1..]);
    }
  }
}
