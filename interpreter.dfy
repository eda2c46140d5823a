/** One iteration of `CPU.Run` in `src/cpu.go` without the SDL part: fetch the
    word at PC, decode it, run the handler, and on success advance PC by 2.
    Any error ends the run, so the state it leaves is the final one. */
module Interpreter {
  import opened Common
  import D = Decoder
  import H = Handlers
  import opened Machine

  /** Calling the handler `Decode` returned, bound to the word. */
  function Execute(op: D.Op, m: Machine, inst: Word, host: H.Host): (r: Outcome)
    requires m.Valid()
    ensures r.m.Valid()
    ensures H.Guarded(op, inst, m, r)
  {
    match op
    case ClearScreen => H.ClearScreen(m, inst, host)
    case Return => H.Return(m, inst)
    case Jump => H.Jump(m, inst)
    case Call => H.Call(m, inst)
    case SkipEqualVal => H.SkipEqualVal(m, inst)
    case SkipNotEqualVal => H.SkipNotEqualVal(m, inst)
    case SkipEqualReg => H.SkipEqualReg(m, inst)
    case LoadValue => H.LoadValue(m, inst)
    case AddValue => H.AddValue(m, inst)
    case LoadReg => H.LoadReg(m, inst)
    case Or => H.Or(m, inst)
    case And => H.And(m, inst)
    case Xor => H.Xor(m, inst)
    case Add => H.Add(m, inst)
    case Sub => H.Sub(m, inst)
    case ShiftRight => H.ShiftRight(m, inst)
    case SubN => H.SubN(m, inst)
    case ShiftLeft => H.ShiftLeft(m, inst)
    case SkipNotEqualReg => H.SkipNotEqualReg(m, inst)
    case LoadI => H.LoadI(m, inst)
    case JumpWithReg => H.JumpWithReg(m, inst)
    case RandomAnd => H.RandomAnd(m, inst, host)
    case DrawSprite => H.DrawSprite(m, inst)
    case SkipIfKey => H.SkipIfKey(m, inst, host)
    case SkipIfNotKey => H.SkipIfNotKey(m, inst, host)
    case SetRegDT => H.SetRegDT(m, inst)
    case WaitForKey => H.WaitForKey(m, inst, host)
    case SetDT => H.SetDT(m, inst)
    case AddIReg => H.AddIReg(m, inst)
    case SetISprite => H.SetISprite(m, inst)
    case SplitDecimal => H.SplitDecimal(m, inst)
    case StoreRegs => H.StoreRegs(m, inst)
    case LoadRegs => H.LoadRegs(m, inst)
    case NotImplemented => H.NotImplemented(m, inst)
  }

  /** One Run iteration: the state afterwards and the error that stops the
      run, if any. `PC += 2` follows every handler that succeeds, including
      jumps, calls and skips. */
  function Step(m: Machine, host: H.Host): (r: Outcome)
    requires m.Valid()
    ensures r.m.Valid()
    ensures Fetch(m.mem, m.pc).1 != Ok ==> r == Outcome(m, Fail(OutOfBounds))
  {
    var (inst, err) := Fetch(m.mem, m.pc);
    if err != Ok then Outcome(m, err)
    else
      match D.Decode(inst)
      case Reject => Outcome(m, Fail(InvalidInstruction))
      case Dispatch(op) =>
        var r := Execute(op, m, inst, host);
        if r.status != Ok then r else Outcome(r.m.(pc := AddWord(r.m.pc, 2)), Ok)
  }

  /** The handler Decode selects never fails its own guard. */
  lemma DispatchNeverInvalid(m: Machine, inst: Word, host: H.Host)
    requires m.Valid() && D.Decode(inst).Dispatch?
    ensures Execute(D.Decode(inst).op, m, inst, host).status != Fail(InvalidInstruction)
  {
    D.DecodeAccepts(inst);
  }

  /** A step fails with "invalid instruction" exactly when the fetched word is
      one Decode rejects (an unknown 8xy_ or Fx__ selector), and then nothing changes. */
  lemma StepInvalidIffRejected(m: Machine, host: H.Host)
    requires m.Valid()
    ensures Step(m, host).status == Fail(InvalidInstruction) <==>
              Fetch(m.mem, m.pc).1 == Ok && D.Decode(Fetch(m.mem, m.pc).0) == D.Reject
    ensures Step(m, host).status == Fail(InvalidInstruction) ==> Step(m, host).m == m
  {
    var (inst, err) := Fetch(m.mem, m.pc);
    if err == Ok && D.Decode(inst).Dispatch? {
      DispatchNeverInvalid(m, inst, host);
    }
  }

  /** A successful step leaves PC two past where the handler put it. */
  lemma StepAddsTwo(m: Machine, host: H.Host)
    requires m.Valid() && Step(m, host).status == Ok
    ensures var inst := Fetch(m.mem, m.pc).0;
            D.Decode(inst).Dispatch? &&
            Step(m, host).m == Execute(D.Decode(inst).op, m, inst, host).m.(pc := AddWord(Execute(D.Decode(inst).op, m, inst, host).m.pc, 2))
  {
  }

  /** A jump 1nnn lands two bytes past its target, so the instruction at nnn
      itself is skipped. */
  lemma StepJumpOvershoots(m: Machine, host: H.Host)
    requires m.Valid() && Fetch(m.mem, m.pc).1 == Ok && Family(Fetch(m.mem, m.pc).0) == 0x1
    ensures Step(m, host) == Outcome(m.(pc := NNN(Fetch(m.mem, m.pc).0) + 2), Ok)
  {
  }

  /** A skip that is taken advances PC by 4 in all, one that is not by 2. */
  lemma StepSkipEqualVal(m: Machine, host: H.Host)
    requires m.Valid() && Fetch(m.mem, m.pc).1 == Ok && Family(Fetch(m.mem, m.pc).0) == 0x3
    ensures var inst := Fetch(m.mem, m.pc).0;
            Step(m, host) ==
              Outcome(m.(pc := AddWord(m.pc, if m.v[X(inst)] == KK(inst) then 4 else 2)), Ok)
  {
  }

  /** 00E0 and 00EE run as NotImplemented: the step only advances PC. */
  lemma StepClearAndReturnDoNothing(m: Machine, host: H.Host)
    requires m.Valid() && Fetch(m.mem, m.pc).1 == Ok
    requires Fetch(m.mem, m.pc).0 == 0x00E0 || Fetch(m.mem, m.pc).0 == 0x00EE
    ensures Step(m, host) == Outcome(m.(pc := AddWord(m.pc, 2)), Ok)
  {
    D.ClearAndReturnUnreachable();
  }
}
