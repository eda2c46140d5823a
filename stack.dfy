/** The call stack shared by both CPU versions: sixteen `uint16` slots and a
    `uint8` stack pointer that starts one past the last slot, is decremented
    (with wrap-around) before a push and incremented after a pop. */
module CallStack {
  import opened Common

  const Depth: nat := 16
  /** SPInit: the pointer of an empty stack. */
  const SPInit: Byte := 16

  datatype Stack = Stack(sp: Byte, slots: seq<Word>)
  {
    ghost predicate Valid()
    {
      |slots| == Depth
    }

    /** The addresses on the stack, top first, when the pointer is within range. */
    ghost function Contents(): seq<Word>
      requires Valid() && sp <= SPInit
    {
      slots[sp..]
    }
  }

  /** A freshly constructed CPU's stack. */
  function Empty(): (s: Stack)
    ensures s.Valid() && s.sp == SPInit && s.Contents() == []
    ensures forall k :: 0 <= k < Depth ==> s.slots[k] == 0
  {
    Stack(SPInit, seq(Depth, _ => 0))
  }

  /** Push: decrement the wrapping pointer, then fail if it is not a slot index,
      otherwise store `data` in that slot. A failed push keeps the decrement. */
  function Push(s: Stack, data: Word): (r: (Stack, Status))
    requires s.Valid()
    ensures r.0.Valid()
    ensures r.0.sp == (s.sp - 1) % 256
    ensures r.1 == Ok <==> 1 <= s.sp <= Depth
    ensures r.1 == Ok ==> r.0.slots == s.slots[s.sp - 1 := data]
    ensures r.1 != Ok ==> r.0.slots == s.slots && r.1 == Fail(StackLimit)
  {
    var sp := SubByte(s.sp, 1);
    if sp >= Depth then (s.(sp := sp), Fail(StackLimit))
    else (Stack(sp, s.slots[sp := data]), Ok)
  }

  /** Pop: refuse a pointer above SPInit; otherwise read the slot it names and
      increment it. At the initial pointer 16 the read is `Stack[16]`, out of the
      array's bounds, which makes Go panic. */
  function Pop(s: Stack): (r: (Stack, Word, Status))
    requires s.Valid()
    ensures s.sp > SPInit ==> r == (s, 0, Fail(EmptyStack))
    ensures s.sp == SPInit ==> r == (s, 0, Fail(IndexPanic))
    ensures s.sp < SPInit ==> r.2 == Ok && r.1 == s.slots[s.sp] && r.0 == s.(sp := s.sp + 1)
    ensures r.2 == Ok ==> r.0.Valid() && r.0.sp <= SPInit && s.Contents() == [r.1] + r.0.Contents()
  {
    if s.sp > SPInit then (s, 0, Fail(EmptyStack))
    else if s.sp >= Depth then (s, 0, Fail(IndexPanic))
    else (s.(sp := s.sp + 1), s.slots[s.sp], Ok)
  }

  /** A successful push puts `data` on top of what was there. */
  lemma PushContents(s: Stack, data: Word)
    requires s.Valid() && s.sp <= SPInit && Push(s, data).1 == Ok
    ensures Push(s, data).0.sp <= SPInit
    ensures Push(s, data).0.Contents() == [data] + s.Contents()
  {
    var s' := Push(s, data).0;
    assert s'.sp == s.sp - 1;
    assert s'.Contents() == [data] + s.Contents() by {
      assert s'.slots[s'.sp..] == [data] + s'.slots[s.sp..];
    }
  }

  /** Popping right after a successful push returns the pushed value and restores the pointer;
      the slot is left holding the value. */
  lemma PushThenPop(s: Stack, data: Word)
    requires s.Valid() && Push(s, data).1 == Ok
    ensures Pop(Push(s, data).0) == (Push(s, data).0.(sp := s.sp), data, Ok)
  {
  }

  /** The stack after pushing every value of `ds` in order, stopping at the first failure. */
  function Pushes(s: Stack, ds: seq<Word>): (r: (Stack, Status))
    requires s.Valid()
    ensures r.0.Valid()
    decreases |ds|
  {
    if ds == [] then (s, Ok)
    else
      var (s', st) := Push(s, ds[0]);
      if st != Ok then (s', st) else Pushes(s', ds[1..])
  }

  function Reverse(ds: seq<Word>): (r: seq<Word>)
    ensures |r| == |ds|
  {
    if ds == [] then [] else Reverse(ds[1..]) + [ds[0]]
  }

  /** From a stack with `s.sp` free slots, up to `s.sp` pushes all succeed and
      leave the values on top, last pushed first. */
  lemma {:induction false} PushesFit(s: Stack, ds: seq<Word>)
    requires s.Valid() && s.sp <= SPInit && |ds| <= s.sp
    ensures Pushes(s, ds).1 == Ok
    ensures Pushes(s, ds).0.sp == s.sp - |ds|
    ensures Pushes(s, ds).0.Contents() == Reverse(ds) + s.Contents()
    decreases |ds|
  {
    if ds != [] {
      var s' := Push(s, ds[0]).0;
      PushContents(s, ds[0]);
      PushesFit(s', ds[1..]);
      assert ds == [ds[0]] + ds[1..];
      assert Reverse(ds) == Reverse(ds[1..]) + [ds[0]];
    }
  }

  /** Sixteen pushes onto a fresh stack succeed; the seventeenth fails, leaves
      the sixteen stored values unchanged and wraps the pointer to 255. */
  lemma SeventeenthPushFails(ds: seq<Word>, extra: Word)
    requires |ds| == Depth
    ensures Pushes(Empty(), ds).1 == Ok
    ensures Pushes(Empty(), ds).0.sp == 0
    ensures Pushes(Empty(), ds).0.Contents() == Reverse(ds)
    ensures var full := Pushes(Empty(), ds).0;
            Push(full, extra) == (full.(sp := 255), Fail(StackLimit))
  {
    PushesFit(Empty(), ds);
  }
}
