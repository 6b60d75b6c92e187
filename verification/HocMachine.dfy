/**
 The stack machine of hoc5/code.c: a flat array of cells, a dispatch loop, and two instructions
 (whilecode, ifcode) that call the dispatch loop again on other parts of the array.
 */
module HocMachine {
  import opened HocLanguage

  datatype Instr = ConstPush | VarPush | EvalVar | AssignVar | BinI(op: BinOp) | NegI | NotI | Bltin
                 | XPop | PrintTop | PrExpr | WhileCode | IfCode

  /** One cell of prog: an instruction, STOP, or an operand of the preceding instruction. */
  datatype Cell = Stop | Op(i: Instr) | NumRef(v: Num) | SymRef(x: Name) | FnRef(f: nat) | Addr(k: nat)

  datatype Datum = NumD(v: Num) | SymD(x: Name)

  datatype State = State(pc: nat, stack: seq<Datum>, env: Env)

  datatype Outcome = Halt(st: State) | Crash(err: Error, env: Env) | Running

  function Push(st: State, d: Datum): Outcome {
    if |st.stack| >= NSTACK then Crash(StackOverflow, st.env) else Halt(st.(stack := st.stack + [d]))
  }

  function Top(st: State): Datum
    requires st.stack != []
  {
    st.stack[|st.stack| - 1]
  }

  function Popped(st: State): State
    requires st.stack != []
  {
    st.(stack := st.stack[..|st.stack| - 1])
  }

  function Operand(prog: seq<Cell>, k: nat): Cell { if k < |prog| then prog[k] else Stop }

  function PushCalc(st: State, c: Calc): Outcome {
    match c
    case Result(v) => Push(st, NumD(v))
    case Bad(err) => Crash(err, st.env)
  }

  /** divop looks at the divisor before it pops the other operand. */
  predicate NoDivisor(A: Arith, op: BinOp, st: State) {
    op == Div && st.stack != [] && Top(st).NumD? && A.isZero(Top(st).v)
  }

  /** The two operands of a binary instruction. A symbol where a number is expected is a code error. */
  function Binary(A: Arith, op: BinOp, st: State): Outcome {
    if NoDivisor(A, op, st) then Crash(DivisionByZero, st.env)
    else if |st.stack| < 2 then Crash(StackUnderflow, st.env)
    else
      var d2, d1 := Top(st), Top(Popped(st));
      if d1.NumD? && d2.NumD? then PushCalc(Popped(Popped(st)), Apply(A, op, d1.v, d2.v)) else Crash(BadCode, st.env)
  }

  function Unary(st: State, f: Num -> Calc): Outcome {
    if st.stack == [] then Crash(StackUnderflow, st.env)
    else if Top(st).SymD? then Crash(BadCode, st.env)
    else PushCalc(Popped(st), f(Top(st).v))
  }

  function PushEval(st: State, r: EvalResult): Outcome {
    match r
    case Ok(v, env) => Push(st.(env := env), NumD(v))
    case Fail(err, env) => Crash(err, env)
  }

  function EvalTop(st: State): Outcome {
    if st.stack == [] then Crash(StackUnderflow, st.env)
    else if Top(st).NumD? then Crash(BadCode, st.env)
    else PushEval(Popped(st), Lookup(Top(st).x, st.env))
  }

  function AssignTop(st: State): Outcome {
    if |st.stack| < 2 then Crash(StackUnderflow, st.env)
    else
      var d1, d2 := Top(st), Top(Popped(st));
      if d1.SymD? && d2.NumD? then PushEval(Popped(Popped(st)), Store(d1.x, d2.v, st.env)) else Crash(BadCode, st.env)
  }

  function Drop(st: State, show: bool): Outcome {
    if st.stack == [] then Crash(StackUnderflow, st.env)
    else if !show then Halt(Popped(st))
    else if Top(st).SymD? then Crash(BadCode, st.env)
    else Halt(Popped(st).(env := st.env.(out := st.env.out + [Top(st).v])))
  }

  /** Instructions that do not re-enter the dispatch loop; pc is already past the opcode. */
  function Simple(A: Arith, prog: seq<Cell>, i: Instr, st: State): Outcome {
    var next := st.(pc := st.pc + 1);
    match i
    case ConstPush => (match Operand(prog, st.pc) case NumRef(v) => Push(next, NumD(v))
        case _ => Crash(BadCode, st.env))
    case VarPush => (match Operand(prog, st.pc) case SymRef(x) => Push(next, SymD(x)) case _ => Crash(BadCode, st.env))
    case Bltin =>
      (match Operand(prog, st.pc)
       case FnRef(f) => Unary(next, v => OfOption(A.builtin(f, v)))
       case _ => Crash(BadCode, st.env))
    case EvalVar => EvalTop(st)
    case AssignVar => AssignTop(st)
    case BinI(op) => Binary(A, op, st)
    case NegI => Unary(st, v => Result(A.negate(v)))
    case NotI => Unary(st, v => Result(A.ofBool(A.isZero(v))))
    case XPop => Drop(st, false)
    case PrintTop => Drop(st, true)
    case PrExpr => Drop(st, true)
    case WhileCode => Crash(BadCode, st.env)
    case IfCode => Crash(BadCode, st.env)
  }

  predicate IsSimple(i: Instr) { !i.WhileCode? && !i.IfCode? }

  /** execute: dispatch from st.pc until STOP. `fuel` bounds dispatches and nesting. */
  function Run(A: Arith, prog: seq<Cell>, fuel: nat, st: State): Outcome
    decreases fuel, 0
  {
    if fuel == 0 then Running
    else
      match Operand(prog, st.pc)
      case Stop => Halt(st)
      case Op(i) =>
        (match Step(A, prog, fuel - 1, i, st.(pc := st.pc + 1))
         case Halt(st1) => Run(A, prog, fuel - 1, st1)
         case other => other)
      case _ => Crash(BadCode, st.env)
  }

  function Step(A: Arith, prog: seq<Cell>, fuel: nat, i: Instr, st: State): Outcome
    decreases fuel, 2
  {
    match i
    case WhileCode => Loop(A, prog, fuel, st.pc, st)
    case IfCode => Branch(A, prog, fuel, st.pc, st)
    case _ => Simple(A, prog, i, st)
  }

  /** The condition at `at` is executed and popped. */
  function Test(A: Arith, prog: seq<Cell>, fuel: nat, at: nat, st: State): Outcome
    decreases fuel, 1
  {
    match Run(A, prog, fuel, st.(pc := at))
    case Halt(st1) => if st1.stack == [] then Crash(StackUnderflow, st1.env)
                      else if Top(st1).SymD? then Crash(BadCode, st1.env)
                      else Halt(st1)
    case other => other
  }

  /** whilecode; `save` is the cell after the opcode, holding the body's address. */
  function Loop(A: Arith, prog: seq<Cell>, fuel: nat, save: nat, st: State): Outcome
    decreases fuel, 1
  {
    if fuel == 0 then Running
    else
      match Test(A, prog, fuel - 1, save + 2, st)
      case Halt(st1) =>
        if A.isZero(Top(st1).v) then Jump(prog, save + 1, Popped(st1))
        else
          (match Enter(A, prog, fuel - 1, save, Popped(st1))
           case Halt(st2) => Loop(A, prog, fuel - 1, save, st2)
           case other => other)
      case other => other
  }

  /** ifcode; an else part exists when its cell is not STOP. */
  function Branch(A: Arith, prog: seq<Cell>, fuel: nat, save: nat, st: State): Outcome
    decreases fuel, 1
  {
    if fuel == 0 then Running
    else
      match Test(A, prog, fuel - 1, save + 3, st)
      case Halt(st1) =>
        var st2 := Popped(st1);
        (match if A.isZero(Top(st1).v)
               then if Operand(prog, save + 1).Stop? then Halt(st2) else Enter(A, prog, fuel - 1, save + 1, st2)
               else Enter(A, prog, fuel - 1, save, st2)
         case Halt(st3) => Jump(prog, save + 2, st3)
         case other => other)
      case other => other
  }

  /** pc becomes the address stored in a cell. */
  function Jump(prog: seq<Cell>, cell: nat, st: State): Outcome {
    match Operand(prog, cell)
    case Addr(k) => Halt(st.(pc := k))
    case _ => Crash(BadCode, st.env)
  }

  /** execute(*cell). */
  function Enter(A: Arith, prog: seq<Cell>, fuel: nat, cell: nat, st: State): Outcome
    decreases fuel, 1
  {
    match Jump(prog, cell, st)
    case Halt(st1) => Run(A, prog, fuel, st1)
    case other => other
  }

  // ---------------------------------------------------------------- more fuel, same outcome

  lemma {:induction false} RunMore(A: Arith, prog: seq<Cell>, f: nat, g: nat, st: State)
    requires f <= g && Run(A, prog, f, st) != Running
    ensures Run(A, prog, g, st) == Run(A, prog, f, st)
    decreases f, 0
  {
    match Operand(prog, st.pc)
    case Op(i) =>
      StepMore(A, prog, f - 1, g - 1, i, st.(pc := st.pc + 1));
      var o := Step(A, prog, f - 1, i, st.(pc := st.pc + 1));
      if o.Halt? { RunMore(A, prog, f - 1, g - 1, o.st); }
    case _ =>
  }

  lemma {:induction false} StepMore(A: Arith, prog: seq<Cell>, f: nat, g: nat, i: Instr, st: State)
    requires f <= g && Step(A, prog, f, i, st) != Running
    ensures Step(A, prog, g, i, st) == Step(A, prog, f, i, st)
    decreases f, 2
  {
    match i
    case WhileCode => LoopMore(A, prog, f, g, st.pc, st);
    case IfCode => BranchMore(A, prog, f, g, st.pc, st);
    case _ =>
  }

  lemma {:induction false} LoopMore(A: Arith, prog: seq<Cell>, f: nat, g: nat, save: nat, st: State)
    requires f <= g && Loop(A, prog, f, save, st) != Running
    ensures Loop(A, prog, g, save, st) == Loop(A, prog, f, save, st)
    decreases f, 1
  {
    RunMore(A, prog, f - 1, g - 1, st.(pc := save + 2));
    var o := Test(A, prog, f - 1, save + 2, st);
    if o.Halt? && !A.isZero(Top(o.st).v) {
      var j := Jump(prog, save, Popped(o.st));
      if j.Halt? {
        RunMore(A, prog, f - 1, g - 1, j.st);
        var b := Run(A, prog, f - 1, j.st);
        if b.Halt? { LoopMore(A, prog, f - 1, g - 1, save, b.st); }
      }
    }
  }

  lemma {:induction false} BranchMore(A: Arith, prog: seq<Cell>, f: nat, g: nat, save: nat, st: State)
    requires f <= g && Branch(A, prog, f, save, st) != Running
    ensures Branch(A, prog, g, save, st) == Branch(A, prog, f, save, st)
    decreases f, 1
  {
    RunMore(A, prog, f - 1, g - 1, st.(pc := save + 3));
    var o := Test(A, prog, f - 1, save + 3, st);
    if o.Halt? {
      var cell := if A.isZero(Top(o.st).v) then save + 1 else save;
      var j := Jump(prog, cell, Popped(o.st));
      if j.Halt? { RunMore(A, prog, f - 1, g - 1, j.st); }
    }
  }
}
