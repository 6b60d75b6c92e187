/**
 The machine of hoc-soledad/src/code.c in place: the operand stack of the smaller machine, a frame
 stack, the returning flag, and instructions that call the dispatch loop again.
 */
module HocCallDevice {
  import opened HocLanguage
  import HM = HocMachine
  import HO = HocOperators
  import HD = HocDevice
  import opened HocFunctions
  import opened HocCalls

  datatype FStatus = Fine | Broken(err: FError) | NoGas

  function OfStatus(s: HD.Status): FStatus {
    match s case Halted => Fine case Crashed(err) => Broken(Base(err)) case OutOfFuel => NoGas
  }

  class CallMachine {
    const A: Arith
    const P: Program
    const prog: seq<FCell>
    /** Operand stack, stackp, pc and the symbol table. */
    const m: HD.Machine
    var frames: seq<Frame>
    var returning: bool
    /** Dispatches left. */
    var gas: nat

    ghost predicate Valid()
      reads this, m
    {
      m.Valid() && m.A == A
    }

    ghost function St(): MState
      requires Valid()
      reads this, m, m.cells
    {
      MState(m.St(), frames, returning)
    }

    /** The result that a status reports in the present state. */
    ghost function Shows(status: FStatus): MResult
      requires Valid()
      reads this, m, m.cells
    {
      match status
      case Fine => Go(St(), gas)
      case Broken(err) => MFail(err, m.env)
      case NoGas => OutOfGas
    }

    constructor (A: Arith, P: Program, prog: seq<FCell>, env: Env, gas: nat)
      ensures Valid() && fresh(m) && fresh(m.cells) && this.A == A && this.P == P && this.prog == prog
              && this.gas == gas
      ensures St() == MState(HM.State(0, [], env), [], false)
    {
      this.A, this.P, this.prog, this.gas := A, P, prog, gas;
      frames, returning := [], false;
      m := new HD.Machine(A, [], env);
    }

    method JumpTo(cell: nat) returns (status: FStatus)
      requires Valid()
      modifies m`pc
      ensures Valid() && Shows(status) == FJump(prog, cell, old(St()), gas)
    {
      var c := Cell(prog, cell);
      if !c.Addr? { return Broken(NoAddress); }
      m.pc := c.k;
      status := Fine;
    }

    /** pc = *cell, unless something has returned. */
    method ResumeAt(cell: nat) returns (status: FStatus)
      requires Valid()
      modifies m`pc
      ensures Valid() && Shows(status) == Resume(prog, cell, old(St()), gas)
    {
      if returning { return Fine; }
      status := JumpTo(cell);
    }

    /** ret: pops the arguments one by one, then goes back one frame. */
    method Ret() returns (status: FStatus)
      requires Valid() && frames != []
      modifies this`frames, this`returning, m`stackp, m`pc
      ensures Valid() && Shows(status) == DoRet(P, old(St()), [], gas)
    {
      var fr := frames[|frames| - 1];
      ghost var height := m.stackp;
      var i := 0;
      while i < fr.nargs
        invariant 0 <= i <= fr.nargs && Valid() && m.stackp == height - i && i <= height && frames == old(frames)
                  && m.pc == old(m.pc)
      {
        ghost var was := m.St().stack;
        var s, _ := m.PopDatum();
        if s != HD.Halted { return OfStatus(s); }
        assert |m.St().stack| == |was| - 1;
        i := i + 1;
      }
      m.pc := fr.retpc;
      frames := frames[..|frames| - 1];
      returning := true;
      status := Fine;
    }

    method ReturnValue() returns (status: FStatus)
      requires Valid()
      modifies this`frames, this`returning, m`stackp, m`pc, m.cells
      ensures Valid() && Shows(status) == DoFuncRet(P, old(St()), gas)
    {
      if frames == [] || frames[|frames| - 1].f !in P { return Broken(Base(BadCode)); }
      if P[frames[|frames| - 1].f].kind == Proc { return Broken(ProcReturnsValue); }
      var s, d := m.PopDatum();
      if s != HD.Halted { return OfStatus(s); }
      ghost var mid := St();
      status := Ret();
      if status != Fine { return; }
      assert |m.St().stack| < NSTACK;
      var s2 := m.PushDatum(d);
      status := OfStatus(s2);
    }

    method ReturnNothing() returns (status: FStatus)
      requires Valid()
      modifies this`frames, this`returning, m`stackp, m`pc
      ensures Valid() && Shows(status) == DoProcRet(P, old(St()), gas)
    {
      if frames == [] || frames[|frames| - 1].f !in P { return Broken(Base(BadCode)); }
      if P[frames[|frames| - 1].f].kind == Func { return Broken(FuncReturnsNothing); }
      status := Ret();
    }

    /** getarg and the push of what it finds. */
    method PushArg() returns (status: FStatus)
      requires Valid()
      modifies m`stackp, m`pc, m.cells
      ensures Valid() && Shows(status) == DoArg(prog, old(St()), gas)
    {
      var c := Cell(prog, m.pc);
      if !c.Int? || frames == [] { return Broken(Base(BadCode)); }
      var fr := frames[|frames| - 1];
      if c.n < 1 || c.n > fr.nargs { return Broken(NotEnoughArguments); }
      var at := fr.top - 1 + c.n - fr.nargs;
      if !(0 <= at < m.stackp) { return Broken(Base(BadCode)); }
      m.pc := m.pc + 1;
      var s := m.PushDatum(m.cells[at]);
      status := OfStatus(s);
    }

    method StoreArg() returns (status: FStatus)
      requires Valid()
      modifies m`pc, m.cells
      ensures Valid() && Shows(status) == DoArgAssign(prog, old(St()), gas)
    {
      var c := Cell(prog, m.pc);
      if !c.Int? { return Broken(Base(BadCode)); }
      if m.stackp == 0 { return Broken(Base(StackUnderflow)); }
      if frames == [] { return Broken(Base(BadCode)); }
      var fr := frames[|frames| - 1];
      if c.n < 1 || c.n > fr.nargs { return Broken(NotEnoughArguments); }
      var at := fr.top - 1 + c.n - fr.nargs;
      if !(0 <= at < m.stackp) { return Broken(Base(BadCode)); }
      m.pc := m.pc + 1;
      m.cells[at] := m.cells[m.stackp - 1];
      status := Fine;
    }

    /** Every instruction that does not call the dispatch loop again. */
    method DoSimple(i: FInstr) returns (status: FStatus)
      requires Valid() && !Reenters(i)
      modifies this`frames, this`returning, m, m.cells
      ensures Valid() && Shows(status) == FSimple(A, P, prog, i, old(St()), gas)
    {
      hide Apply, Lookup, HocLanguage.Store, DoArg, DoArgAssign, DoFuncRet, DoProcRet;
      hide HM.Binary, HM.EvalTop, HM.AssignTop, HM.Drop, HO.EndsAs;
      var s: HD.Status := HD.Halted;
      match i {
        case ConstPush =>
          var c := Cell(prog, m.pc);
          if !c.NumRef? { return Broken(Base(BadCode)); }
          m.pc := m.pc + 1;
          s := m.PushDatum(HM.NumD(c.v));
        case VarPush =>
          var c := Cell(prog, m.pc);
          if !c.SymRef? { return Broken(Base(BadCode)); }
          m.pc := m.pc + 1;
          s := m.PushDatum(HM.SymD(c.x));
        case EvalVar => s := m.DoEval();
        case AssignVar => s := m.DoAssign();
        case NegI => s := m.DoUnary(v => Result(A.negate(v)));
        case BinI(op) => s := m.DoBinary(op);
        case XPop => s := m.DoDrop(false);
        case PrExpr => s := m.DoDrop(true);
        case ArgI => status := PushArg(); return;
        case ArgAssignI => status := StoreArg(); return;
        case FuncRet => status := ReturnValue(); return;
        case ProcRet => status := ReturnNothing(); return;
      }
      status := OfStatus(s);
    }

    /** execute(p). */
    method Execute(p: nat) returns (status: FStatus)
      requires Valid()
      modifies this`frames, this`returning, this`gas, m, m.cells
      ensures Valid() && gas <= old(gas) && Shows(status) == FRun(A, P, prog, old(gas), SetPc(old(St()), p))
      decreases gas, 0
    {
      hide FStep;
      m.pc := p;
      ghost var start := St();
      while Cell(prog, m.pc) != Stop && !returning
        invariant Valid() && gas <= old(gas) && FRun(A, P, prog, old(gas), start) == FRun(A, P, prog, gas, St())
        decreases gas
      {
        var c := Cell(prog, m.pc);
        if gas == 0 { return NoGas; }
        if !c.Op? { return Broken(Base(BadCode)); }
        m.pc := m.pc + 1;
        gas := gas - 1;
        status := Dispatch(c.i);
        if status != Fine { return; }
      }
      status := Fine;
    }

    /** The call through the instruction's function pointer. */
    method Dispatch(i: FInstr) returns (status: FStatus)
      requires Valid()
      modifies this`frames, this`returning, this`gas, m, m.cells
      ensures Valid() && gas <= old(gas) && Shows(status) == FStep(A, P, prog, old(gas), i, old(St()))
      decreases gas, 5
    {
      hide FSimple, FCall, FBranch, FLoop, FFor;
      FSimpleGas(A, P, prog, i, St(), gas);
      match i {
        case CallI => status := Call();
        case WhileCode => status := While();
        case ForCode => status := For();
        case IfCode => status := If();
        case _ => status := DoSimple(i);
      }
    }

    /** execute(*cell). */
    method Enter(cell: nat) returns (status: FStatus)
      requires Valid()
      modifies this`frames, this`returning, this`gas, m, m.cells
      ensures Valid() && gas <= old(gas) && Shows(status) == FEnter(A, P, prog, old(gas), cell, old(St()))
      decreases gas, 1
    {
      hide FRun;
      status := JumpTo(cell);
      if status != Fine { return; }
      status := Execute(m.pc);
    }

    /** execute(at) and the pop of its value. */
    method Test(at: nat) returns (status: FStatus, zero: bool)
      requires Valid()
      modifies this`frames, this`returning, this`gas, m, m.cells
      ensures Valid() && gas <= old(gas)
      ensures var r := FTest(A, P, prog, old(gas), at, old(St()));
              if status == Fine then r.Go? && zero == A.isZero(HM.Top(r.st.m).v) && gas == r.gas
                  && St() == PoppedF(r.st) else Shows(status) == r
      decreases gas, 1
    {
      hide FRun;
      zero := false;
      status := Execute(at);
      if status != Fine { return; }
      var s, d := m.PopDatum();
      if s != HD.Halted { return OfStatus(s), zero; }
      if d.SymD? { return Broken(Base(BadCode)), zero; }
      zero := A.isZero(d.v);
    }

    /** call: a new frame, a nested dispatch loop, and the flag cleared. */
    method Call() returns (status: FStatus)
      requires Valid()
      modifies this`frames, this`returning, this`gas, m, m.cells
      ensures Valid() && gas <= old(gas) && Shows(status) == FCall(A, P, prog, old(gas), old(St()))
      decreases gas, 1
    {
      hide FRun;
      var c, n := Cell(prog, m.pc), Cell(prog, m.pc + 1);
      if !c.SymRef? || !n.Int? || c.x !in P { return Broken(Base(BadCode)); }
      if |frames| >= NFRAME - 1 { return Broken(CallTooDeep); }
      frames := frames + [Frame(c.x, m.pc + 2, m.stackp, n.n)];
      status := Execute(P[c.x].at);
      if status != Fine { return; }
      returning := false;
    }

    method If() returns (status: FStatus)
      requires Valid()
      modifies this`frames, this`returning, this`gas, m, m.cells
      ensures Valid() && gas <= old(gas) && Shows(status) == FBranch(A, P, prog, old(gas), old(m.pc), old(St()))
      decreases gas, 3
    {
      hide FRun, FTest, FEnter, Resume;
      var save := m.pc;
      var zero;
      status, zero := Test(save + 3);
      if status != Fine { return; }
      if !zero {
        status := Enter(save);
      } else if !Cell(prog, save + 1).Stop? {
        status := Enter(save + 1);
      }
      if status != Fine { return; }
      status := ResumeAt(save + 2);
    }

    method While() returns (status: FStatus)
      requires Valid()
      modifies this`frames, this`returning, this`gas, m, m.cells
      ensures Valid() && gas <= old(gas) && Shows(status)
              == FLoop(A, P, prog, old(gas), old(m.pc) + 2, None, old(m.pc), old(m.pc) + 1, old(St()))
      decreases gas, 4
    {
      hide FLoop;
      status := Turns(m.pc + 2, None, m.pc, m.pc + 1);
    }

    method For() returns (status: FStatus)
      requires Valid()
      modifies this`frames, this`returning, this`gas, m, m.cells
      ensures Valid() && gas <= old(gas) && Shows(status) == FFor(A, P, prog, old(gas), old(m.pc), old(St()))
      decreases gas, 4
    {
      hide FRun, FLoop;
      var save := m.pc;
      status := Execute(save + 4);
      if status != Fine { return; }
      var s, _ := m.PopDatum();
      if s != HD.Halted { return OfStatus(s); }
      var c := Cell(prog, save);
      if !c.Addr? { return Broken(Base(BadCode)); }
      status := Turns(c.k, Some(save + 1), save + 2, save + 3);
    }

    /** The loop of whilecode and forcode, from the condition on. */
    method Turns(cond: nat, post: Option<nat>, body: nat, end: nat) returns (status: FStatus)
      requires Valid()
      modifies this`frames, this`returning, this`gas, m, m.cells
      ensures Valid() && gas <= old(gas) && Shows(status)
              == FLoop(A, P, prog, old(gas), cond, post, body, end, old(St()))
      decreases gas, 3
    {
      hide FRun, FTest, FEnter, FPost, Resume;
      ghost var start := St();
      while true
        invariant Valid() && gas <= old(gas)
        invariant FLoop(A, P, prog, old(gas), cond, post, body, end, start)
                  == FLoop(A, P, prog, gas, cond, post, body, end, St())
        decreases gas
      {
        var turn := gas;
        var zero;
        status, zero := Test(cond);
        if status != Fine { return; }
        if zero {
          status := ResumeAt(end);
          return;
        }
        status := Enter(body);
        if status != Fine || returning { return; }
        status := After(post);
        if status != Fine { return; }
        if gas >= turn { return NoGas; }
      }
    }

    /** The post expression of a for loop. */
    method After(post: Option<nat>) returns (status: FStatus)
      requires Valid()
      modifies this`frames, this`returning, this`gas, m, m.cells
      ensures Valid() && gas <= old(gas) && Shows(status) == FPost(A, P, prog, old(gas), post, old(St()))
      decreases gas, 2
    {
      hide FRun, FEnter;
      if post.None? { return Fine; }
      status := Enter(post.value);
      if status != Fine { return; }
      var s, _ := m.PopDatum();
      status := OfStatus(s);
    }
  }
}
