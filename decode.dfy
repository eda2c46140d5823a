/** Instruction decoding in `src/`: which handler `CPU.Decode` picks for a
    word, and which words each handler's own guard accepts.

    `Decode` returns a closure over the handler; here it returns the handler's
    tag. A handler's guard is `CheckInst` on the top nibble plus, for the
    families that share a nibble, a test of the low nibble or the low byte. */
module Decoder {
  import opened Common

  datatype Op =
    | ClearScreen | Return | Jump | Call
    | SkipEqualVal | SkipNotEqualVal | SkipEqualReg
    | LoadValue | AddValue
    | LoadReg | Or | And | Xor | Add | Sub | ShiftRight | SubN | ShiftLeft
    | SkipNotEqualReg | LoadI | JumpWithReg | RandomAnd | DrawSprite
    | SkipIfKey | SkipIfNotKey
    | SetRegDT | WaitForKey | SetDT | AddIReg | SetISprite | SplitDecimal | StoreRegs | LoadRegs
    | NotImplemented

  /** The second test a guard makes after `CheckInst`, if any. */
  datatype Selector = AnyWord | LowNibble(nibble: nat) | LowByte(low: Byte)

  datatype Guard = Guard(family: Word, sel: Selector) | NoGuard

  /** The guard each handler opens with. NotImplemented has none. */
  function GuardOf(op: Op): Guard
  {
    match op
    case ClearScreen => Guard(0x0000, LowByte(0xE0))
    case Return => Guard(0x0000, LowByte(0xEE))
    case Jump => Guard(0x1000, AnyWord)
    case Call => Guard(0x2000, AnyWord)
    case SkipEqualVal => Guard(0x3000, AnyWord)
    case SkipNotEqualVal => Guard(0x4000, AnyWord)
    case SkipEqualReg => Guard(0x5000, AnyWord)
    case LoadValue => Guard(0x6000, AnyWord)
    case AddValue => Guard(0x7000, AnyWord)
    case LoadReg => Guard(0x8000, LowNibble(0x0))
    case Or => Guard(0x8000, LowNibble(0x1))
    case And => Guard(0x8000, LowNibble(0x2))
    case Xor => Guard(0x8000, LowNibble(0x3))
    case Add => Guard(0x8000, LowNibble(0x4))
    case Sub => Guard(0x8000, LowNibble(0x5))
    case ShiftRight => Guard(0x8000, LowNibble(0x6))
    case SubN => Guard(0x8000, LowNibble(0x7))
    case ShiftLeft => Guard(0x8000, LowNibble(0xE))
    case SkipNotEqualReg => Guard(0x9000, AnyWord)
    case LoadI => Guard(0xA000, AnyWord)
    case JumpWithReg => Guard(0xB000, AnyWord)
    case RandomAnd => Guard(0xC000, AnyWord)
    case DrawSprite => Guard(0xD000, AnyWord)
    case SkipIfKey => Guard(0xE000, LowByte(0x9E))
    case SkipIfNotKey => Guard(0xE000, LowByte(0xA1))
    case SetRegDT => Guard(0xF000, LowByte(0x07))
    case WaitForKey => Guard(0xF000, LowByte(0x0A))
    case SetDT => Guard(0xF000, LowByte(0x15))
    case AddIReg => Guard(0xF000, LowByte(0x1E))
    case SetISprite => Guard(0xF000, LowByte(0x29))
    case SplitDecimal => Guard(0xF000, LowByte(0x33))
    case StoreRegs => Guard(0xF000, LowByte(0x55))
    case LoadRegs => Guard(0xF000, LowByte(0x65))
    case NotImplemented => NoGuard
  }

  /** The handler's guard lets the word through. */
  predicate Accepts(op: Op, inst: Word)
  {
    match GuardOf(op)
    case NoGuard => true
    case Guard(family, sel) =>
      CheckInst(inst, family) &&
      match sel
      case AnyWord => true
      case LowNibble(k) => N(inst) == k
      case LowByte(k) => KK(inst) == k
  }

  datatype Decoded = Dispatch(op: Op) | Reject

  /** The low nibbles the 8 family has handlers for, and the low bytes of the F family. */
  const ArithSelectors: set<nat> := {0x0, 0x1, 0x2, 0x3, 0x4, 0x5, 0x6, 0x7, 0xE}
  const MiscSelectors: set<Byte> := {0x07, 0x0A, 0x15, 0x1E, 0x29, 0x33, 0x55, 0x65}

  /** Decode: the nested switch on the top nibble and then the low nibble (8)
      or low byte (E, F). Nibble 0 and unknown E words go to NotImplemented;
      unknown 8 and F words fall out of the switch into the error. */
  function Decode(inst: Word): (r: Decoded)
    ensures r == Reject <==> (Family(inst) == 0x8 && N(inst) !in ArithSelectors) ||
                             (Family(inst) == 0xF && KK(inst) !in MiscSelectors)
    ensures Family(inst) == 0x0 ==> r == Dispatch(NotImplemented)
    ensures Family(inst) == 0xE && KK(inst) != 0x9E && KK(inst) != 0xA1 ==> r == Dispatch(NotImplemented)
  {
    match Family(inst)
    case 0x1 => Dispatch(Jump)
    case 0x2 => Dispatch(Call)
    case 0x3 => Dispatch(SkipEqualVal)
    case 0x4 => Dispatch(SkipNotEqualVal)
    case 0x5 => Dispatch(SkipEqualReg)
    case 0x6 => Dispatch(LoadValue)
    case 0x7 => Dispatch(AddValue)
    case 0x8 =>
      (match N(inst)
       case 0x0 => Dispatch(LoadReg)
       case 0x1 => Dispatch(Or)
       case 0x2 => Dispatch(And)
       case 0x3 => Dispatch(Xor)
       case 0x4 => Dispatch(Add)
       case 0x5 => Dispatch(Sub)
       case 0x6 => Dispatch(ShiftRight)
       case 0x7 => Dispatch(SubN)
       case 0xE => Dispatch(ShiftLeft)
       case _ => Reject)
    case 0x9 => Dispatch(SkipNotEqualReg)
    case 0xA => Dispatch(LoadI)
    case 0xB => Dispatch(JumpWithReg)
    case 0xC => Dispatch(RandomAnd)
    case 0xD => Dispatch(DrawSprite)
    case 0xE =>
      (match KK(inst)
       case 0x9E => Dispatch(SkipIfKey)
       case 0xA1 => Dispatch(SkipIfNotKey)
       case _ => Dispatch(NotImplemented))
    case 0xF =>
      (match KK(inst)
       case 0x07 => Dispatch(SetRegDT)
       case 0x0A => Dispatch(WaitForKey)
       case 0x15 => Dispatch(SetDT)
       case 0x1E => Dispatch(AddIReg)
       case 0x29 => Dispatch(SetISprite)
       case 0x33 => Dispatch(SplitDecimal)
       case 0x55 => Dispatch(StoreRegs)
       case 0x65 => Dispatch(LoadRegs)
       case _ => Reject)
    case _ => Dispatch(NotImplemented)
  }

  /** Every handler Decode selects accepts the same word under its own guard,
      and Decode never selects ClearScreen or Return. */
  lemma DecodeAccepts(inst: Word)
    ensures Decode(inst).Dispatch? ==> Accepts(Decode(inst).op, inst)
    ensures Decode(inst).Dispatch? ==> Decode(inst).op != ClearScreen && Decode(inst).op != Return
  {
    match Family(inst)
    case 0x8 =>
    case 0xE =>
    case 0xF =>
    case _ =>
  }

  /** Decode picks THE handler whose guard accepts the word: every handler
      with a guard that accepts it, other than the two it never dispatches
      to, is the one it returns. */
  lemma DecodeIsTheAcceptingHandler(inst: Word, op: Op)
    requires op != NotImplemented && op != ClearScreen && op != Return && Accepts(op, inst)
    ensures Decode(inst) == Dispatch(op)
  {
  }

  /** 00E0 (clear screen) and 00EE (return) only ever reach NotImplemented. */
  lemma ClearAndReturnUnreachable()
    ensures Decode(0x00E0) == Dispatch(NotImplemented) && Accepts(ClearScreen, 0x00E0)
    ensures Decode(0x00EE) == Dispatch(NotImplemented) && Accepts(Return, 0x00EE)
  {
  }
}
