/**
 The machine of hoc-soledad/src/code.c: call frames, arguments on the operand stack, the `returning`
 flag that unwinds nested dispatch loops, and the code its grammar actions emit.
 */
module HocCalls {
  import opened HocLanguage
  import HM = HocMachine
  import opened HocFunctions

  datatype FInstr = ConstPush | VarPush | EvalVar | AssignVar | ArgI | ArgAssignI | NegI | BinI(op: BinOp)
                  | XPop | PrExpr
                  | CallI | FuncRet | ProcRet | WhileCode | ForCode | IfCode

  datatype FCell = Stop | Op(i: FInstr) | NumRef(v: Num) | SymRef(x: Name) | Int(n: nat) | Addr(k: nat)

  /** A call frame; `top` is the height of the stack at the call, just above the last argument. */
  datatype Frame = Frame(f: Name, retpc: nat, top: nat, nargs: nat)

  datatype MState = MState(m: HM.State, frames: seq<Frame>, returning: bool)

  datatype MResult = Go(st: MState, gas: nat) | MFail(err: FError, env: Env) | OutOfGas

  function Cell(prog: seq<FCell>, k: nat): FCell { if k < |prog| then prog[k] else Stop }

  function Lift(o: HM.Outcome, st: MState, gas: nat): MResult {
    match o
    case Halt(m) => Go(st.(m := m), gas)
    case Crash(err, env) => MFail(Base(err), env)
    case Running => OutOfGas
  }

  function SetPc(st: MState, k: nat): MState { st.(m := st.m.(pc := k)) }

  function FJump(prog: seq<FCell>, cell: nat, st: MState, gas: nat): MResult {
    match Cell(prog, cell)
    case Addr(k) => Go(SetPc(st, k), gas)
    case _ => MFail(NoAddress, st.m.env)
  }

  function TopFrame(st: MState): Frame
    requires st.frames != []
  {
    st.frames[|st.frames| - 1]
  }

  /** Where getarg finds argument k. */
  function ArgIndex(st: MState, k: int): int
    requires st.frames != []
  {
    TopFrame(st).top - 1 + k - TopFrame(st).nargs
  }

  /** ret: the arguments are popped, pc and the frame pointer restored, the flag raised. */
  function DoRet(P: Program, st: MState, push: seq<HM.Datum>, gas: nat): MResult
    requires st.frames != []
  {
    var fr := TopFrame(st);
    if |st.m.stack| < fr.nargs then MFail(Base(StackUnderflow), st.m.env)
    else Go(MState(HM.State(fr.retpc, st.m.stack[..|st.m.stack| - fr.nargs] + push, st.m.env),
        st.frames[..|st.frames| - 1], true), gas)
  }

  function DoFuncRet(P: Program, st: MState, gas: nat): MResult {
    if st.frames == [] || TopFrame(st).f !in P then MFail(Base(BadCode), st.m.env)
    else if P[TopFrame(st).f].kind == Proc then MFail(ProcReturnsValue, st.m.env)
    else if st.m.stack == [] then MFail(Base(StackUnderflow), st.m.env)
    else DoRet(P, st.(m := HM.Popped(st.m)), [HM.Top(st.m)], gas)
  }

  function DoProcRet(P: Program, st: MState, gas: nat): MResult {
    if st.frames == [] || TopFrame(st).f !in P then MFail(Base(BadCode), st.m.env)
    else if P[TopFrame(st).f].kind == Func then MFail(FuncReturnsNothing, st.m.env)
    else DoRet(P, st, [], gas)
  }

  function DoArg(prog: seq<FCell>, st: MState, gas: nat): MResult {
    match Cell(prog, st.m.pc)
    case Int(k) =>
      if st.frames == [] then MFail(Base(BadCode), st.m.env)
      else if k < 1 || k > TopFrame(st).nargs then MFail(NotEnoughArguments, st.m.env)
      else
        var at := ArgIndex(st, k);
        if 0 <= at < |st.m.stack| then Lift(HM.Push(st.m.(pc := st.m.pc + 1), st.m.stack[at]), st, gas)
            else MFail(Base(BadCode), st.m.env)
    case _ => MFail(Base(BadCode), st.m.env)
  }

  function DoArgAssign(prog: seq<FCell>, st: MState, gas: nat): MResult {
    match Cell(prog, st.m.pc)
    case Int(k) =>
      if st.m.stack == [] then MFail(Base(StackUnderflow), st.m.env)
      else if st.frames == [] then MFail(Base(BadCode), st.m.env)
      else if k < 1 || k > TopFrame(st).nargs then MFail(NotEnoughArguments, st.m.env)
      else
        var at := ArgIndex(st, k);
        if 0 <= at < |st.m.stack| then Go(st.(m := HM.State(st.m.pc + 1, st.m.stack[at := HM.Top(st.m)], st.m.env)),
            gas)
        else MFail(Base(BadCode), st.m.env)
    case _ => MFail(Base(BadCode), st.m.env)
  }

  function FSimple(A: Arith, P: Program, prog: seq<FCell>, i: FInstr, st: MState, gas: nat): MResult {
    var next := st.m.(pc := st.m.pc + 1);
    match i
    case ConstPush => (match Cell(prog, st.m.pc) case NumRef(v) => Lift(HM.Push(next, HM.NumD(v)), st, gas)
        case _ => MFail(Base(BadCode), st.m.env))
    case VarPush => (match Cell(prog, st.m.pc) case SymRef(x) => Lift(HM.Push(next, HM.SymD(x)), st, gas)
        case _ => MFail(Base(BadCode), st.m.env))
    case EvalVar => Lift(HM.EvalTop(st.m), st, gas)
    case AssignVar => Lift(HM.AssignTop(st.m), st, gas)
    case NegI => Lift(HM.Unary(st.m, v => Result(A.negate(v))), st, gas)
    case BinI(op) => Lift(HM.Binary(A, op, st.m), st, gas)
    case XPop => Lift(HM.Drop(st.m, false), st, gas)
    case PrExpr => Lift(HM.Drop(st.m, true), st, gas)
    case ArgI => DoArg(prog, st, gas)
    case ArgAssignI => DoArgAssign(prog, st, gas)
    case FuncRet => DoFuncRet(P, st, gas)
    case ProcRet => DoProcRet(P, st, gas)
    case _ => MFail(Base(BadCode), st.m.env)
  }

  predicate Reenters(i: FInstr) { i.CallI? || i.WhileCode? || i.ForCode? || i.IfCode? }

  lemma FSimpleGas(A: Arith, P: Program, prog: seq<FCell>, i: FInstr, st: MState, gas: nat)
    ensures FSimple(A, P, prog, i, st, gas).Go? ==> FSimple(A, P, prog, i, st, gas).gas == gas
  {
  }

  /** execute: dispatch until STOP or until something has returned. */
  function FRun(A: Arith, P: Program, prog: seq<FCell>, gas: nat, st: MState): (r: MResult)
    ensures r.Go? ==> r.gas <= gas
    decreases gas, 0
  {
    if Cell(prog, st.m.pc).Stop? || st.returning then Go(st, gas)
    else if gas == 0 then OutOfGas
    else
      match Cell(prog, st.m.pc)
      case Op(i) =>
        (match FStep(A, P, prog, gas - 1, i, SetPc(st, st.m.pc + 1))
         case Go(st1, g1) => FRun(A, P, prog, g1, st1)
         case other => other)
      case _ => MFail(Base(BadCode), st.m.env)
  }

  function FStep(A: Arith, P: Program, prog: seq<FCell>, gas: nat, i: FInstr, st: MState): (r: MResult)
    ensures r.Go? ==> r.gas <= gas
    decreases gas, 5
  {
    match i
    case CallI => FCall(A, P, prog, gas, st)
    case IfCode => FBranch(A, P, prog, gas, st.m.pc, st)
    case WhileCode => FLoop(A, P, prog, gas, st.m.pc + 2, None, st.m.pc, st.m.pc + 1, st)
    case ForCode => FFor(A, P, prog, gas, st.m.pc, st)
    case _ =>
      FSimpleGas(A, P, prog, i, st, gas);
      FSimple(A, P, prog, i, st, gas)
  }

  /** The code at `at` is executed and its value popped. */
  function FTest(A: Arith, P: Program, prog: seq<FCell>, gas: nat, at: nat, st: MState): (r: MResult)
    ensures r.Go? ==> r.gas <= gas && r.st.m.stack != [] && HM.Top(r.st.m).NumD?
    decreases gas, 1
  {
    match FRun(A, P, prog, gas, SetPc(st, at))
    case Go(st1, g1) => if st1.m.stack == [] then MFail(Base(StackUnderflow), st1.m.env)
                        else if HM.Top(st1.m).SymD? then MFail(Base(BadCode), st1.m.env)
                        else Go(st1, g1)
    case other => other
  }

  function PoppedF(st: MState): MState
    requires st.m.stack != []
  {
    st.(m := HM.Popped(st.m))
  }

  /** execute(*cell). */
  function FEnter(A: Arith, P: Program, prog: seq<FCell>, gas: nat, cell: nat, st: MState): (r: MResult)
    ensures r.Go? ==> r.gas <= gas
    decreases gas, 1
  {
    match FJump(prog, cell, st, gas)
    case Go(st1, g1) => FRun(A, P, prog, gas, st1)
    case other => other
  }

  /** pc becomes *cell unless something has returned. */
  function Resume(prog: seq<FCell>, cell: nat, st: MState, gas: nat): MResult {
    if st.returning then Go(st, gas) else FJump(prog, cell, st, gas)
  }

  function FBranch(A: Arith, P: Program, prog: seq<FCell>, gas: nat, save: nat, st: MState): (r: MResult)
    ensures r.Go? ==> r.gas <= gas
    decreases gas, 3
  {
    match FTest(A, P, prog, gas, save + 3, st)
    case Go(st1, g1) =>
      var st2 := PoppedF(st1);
      (match if A.isZero(HM.Top(st1.m).v)
             then if Cell(prog, save + 1).Stop? then Go(st2, g1) else FEnter(A, P, prog, g1, save + 1, st2)
             else FEnter(A, P, prog, g1, save, st2)
       case Go(st3, g3) => Resume(prog, save + 2, st3, g3)
       case other => other)
    case other => other
  }

  /** The turns of whilecode and forcode: condition at `cond`, body and end through cells, and for
      forcode the post expression through a cell. A turn that spends no gas cannot go on. */
  function FLoop(A: Arith, P: Program, prog: seq<FCell>, gas: nat, cond: nat, post: Option<nat>, body: nat, end: nat,
                 st: MState): (r: MResult)
    ensures r.Go? ==> r.gas <= gas
    decreases gas, 3
  {
    match FTest(A, P, prog, gas, cond, st)
    case Go(st1, g1) =>
      if A.isZero(HM.Top(st1.m).v) then Resume(prog, end, PoppedF(st1), g1)
      else
        (match FEnter(A, P, prog, g1, body, PoppedF(st1))
         case Go(st2, g2) =>
           if st2.returning then Go(st2, g2)
           else
             (match FPost(A, P, prog, g2, post, st2)
              case Go(st3, g3) => if g3 >= gas then OutOfGas else FLoop(A, P, prog, g3, cond, post, body, end, st3)
              case other => other)
         case other => other)
    case other => other
  }

  /** execute(*cell) and drop its value, when there is a post expression. */
  function FPost(A: Arith, P: Program, prog: seq<FCell>, gas: nat, post: Option<nat>, st: MState): (r: MResult)
    ensures r.Go? ==> r.gas <= gas
    decreases gas, 2
  {
    match post
    case None => Go(st, gas)
    case Some(cell) =>
      match FEnter(A, P, prog, gas, cell, st)
      case Go(st1, g1) => if st1.m.stack == [] then MFail(Base(StackUnderflow), st1.m.env) else Go(PoppedF(st1), g1)
      case other => other
  }

  function FFor(A: Arith, P: Program, prog: seq<FCell>, gas: nat, save: nat, st: MState): (r: MResult)
    ensures r.Go? ==> r.gas <= gas
    decreases gas, 4
  {
    match FRun(A, P, prog, gas, SetPc(st, save + 4))
    case Go(st1, g1) =>
      if st1.m.stack == [] then MFail(Base(StackUnderflow), st1.m.env)
      else
        (match Cell(prog, save)
         case Addr(cond) => FLoop(A, P, prog, g1, cond, Some(save + 1), save + 2, save + 3, PoppedF(st1))
         case _ => MFail(Base(BadCode), st1.m.env))
    case other => other
  }

  /** call: a new frame, the body by a nested execute, the flag cleared. */
  function FCall(A: Arith, P: Program, prog: seq<FCell>, gas: nat, st: MState): (r: MResult)
    ensures r.Go? ==> r.gas <= gas
    decreases gas, 1
  {
    match Cell(prog, st.m.pc)
    case SymRef(f) =>
      (match Cell(prog, st.m.pc + 1)
       case Int(n) =>
         if f !in P then MFail(Base(BadCode), st.m.env)
         else if |st.frames| >= NFRAME - 1 then MFail(CallTooDeep, st.m.env)
         else
           var inner := MState(st.m.(pc := P[f].at), st.frames + [Frame(f, st.m.pc + 2, |st.m.stack|, n)],
               st.returning);
           (match FRun(A, P, prog, gas, inner)
            case Go(st1, g1) => Go(st1.(returning := false), g1)
            case other => other)
       case _ => MFail(Base(BadCode), st.m.env))
    case _ => MFail(Base(BadCode), st.m.env)
  }

  // ---------------------------------------------------------------- the emitted code

  function FExprCode(e: FExpr): (c: seq<FCell>)
    ensures |c| >= 2
  {
    match e
    case KConst(v) => [Op(ConstPush), NumRef(v)]
    case KVar(x) => [Op(VarPush), SymRef(x), Op(EvalVar)]
    case KArg(k) => [Op(ArgI), Int(k)]
    case KAssign(x, e1) => FExprCode(e1) + [Op(VarPush), SymRef(x), Op(AssignVar)]
    case KArgAssign(k, e1) => FExprCode(e1) + [Op(ArgAssignI), Int(k)]
    case KNeg(e1) => FExprCode(e1) + [Op(NegI)]
    case KBin(op, l, r) => FExprCode(l) + FExprCode(r) + [Op(BinI(op))]
    case KCall(f, args) => ArgsCode(args) + [Op(CallI), SymRef(f), Int(Count(args))]
  }

  function ArgsCode(args: Args): seq<FCell> {
    match args
    case NoArgs => []
    case MoreArgs(e, rest) => FExprCode(e) + ArgsCode(rest)
  }

  function FSize(s: FStmt): nat {
    match s
    case KEval(e) => |FExprCode(e)| + 1
    case KPrint(e) => |FExprCode(e)| + 1
    case KReturn => 1
    case KReturnValue(e) => |FExprCode(e)| + 1
    case KProcedure(f, args) => |ArgsCode(args)| + 3
    case KEmpty => 0
    case KThen(s1, s2) => FSize(s1) + FSize(s2)
    case KWhile(c, s1) => 3 + (|FExprCode(c)| + 1) + (FSize(s1) + 1)
    case KIf(c, s1) => 4 + (|FExprCode(c)| + 1) + (FSize(s1) + 1)
    case KIfElse(c, s1, s2) => 4 + (|FExprCode(c)| + 1) + (FSize(s1) + 1) + (FSize(s2) + 1)
    case KFor(i, c, p, s1) => 5 + (|FExprCode(i)| + 1) + (|FExprCode(c)| + 1) + (|FExprCode(p)| + 1) + (FSize(s1) + 1)
  }

  /** An expression and the STOP after it, as every condition has. */
  function Closed(e: FExpr): seq<FCell> { FExprCode(e) + [Stop] }

  /**
   * What a part of if, while or for leaves in its hole: the value of its reduction.  That is the
   * address of its code, but for a bare `return`, whose action sets no value: there it is the symbol
   * of the keyword.
   */
  function Hole(s: FStmt, at: nat): FCell { if s.KReturn? then SymRef("return") else Addr(at) }

  function FStmtCode(s: FStmt, p: nat): (c: seq<FCell>)
    ensures |c| == FSize(s)
  {
    match s
    case KEval(e) => FExprCode(e) + [Op(XPop)]
    case KPrint(e) => FExprCode(e) + [Op(PrExpr)]
    case KReturn => [Op(ProcRet)]
    case KReturnValue(e) => FExprCode(e) + [Op(FuncRet)]
    case KProcedure(f, args) => ArgsCode(args) + [Op(CallI), SymRef(f), Int(Count(args))]
    case KEmpty => []
    case KThen(s1, s2) => FStmtCode(s1, p) + FStmtCode(s2, p + FSize(s1))
    case KWhile(c, s1) =>
      var body := p + 3 + |Closed(c)|;
      [Op(WhileCode), Hole(s1, body), Addr(p + FSize(s))] + Closed(c) + (FStmtCode(s1, body) + [Stop])
    case KIf(c, s1) =>
      var thn := p + 4 + |Closed(c)|;
      [Op(IfCode), Hole(s1, thn), Stop, Addr(p + FSize(s))] + Closed(c) + (FStmtCode(s1, thn) + [Stop])
    case KIfElse(c, s1, s2) =>
      var thn := p + 4 + |Closed(c)|;
      var els := thn + FSize(s1) + 1;
      [Op(IfCode), Hole(s1, thn), Hole(s2, els), Addr(p + FSize(s))] + Closed(c) + (FStmtCode(s1, thn) + [Stop])
          + (FStmtCode(s2, els) + [Stop])
    case KFor(i, c, post, s1) =>
      var cond := p + 5 + |Closed(i)|;
      var next := cond + |Closed(c)|;
      var body := next + |Closed(post)|;
      [Op(ForCode), Addr(cond), Addr(next), Hole(s1, body), Addr(p + FSize(s))] + Closed(i) + Closed(c)
          + Closed(post) + (FStmtCode(s1, body) + [Stop])
  }

  ghost predicate FCodeAt(prog: seq<FCell>, p: nat, c: seq<FCell>) {
    p + |c| <= |prog| && prog[p..p + |c|] == c
  }

  /** Every definition's code, closed by procret, is in prog at its address. */
  ghost predicate Loaded(P: Program, prog: seq<FCell>) {
    forall f :: f in P ==> FCodeAt(prog, P[f].at, FStmtCode(P[f].body, P[f].at) + [Op(ProcRet)])
  }
}
