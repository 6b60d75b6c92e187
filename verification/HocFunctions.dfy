/**
 Functions and procedures (hoc-soledad/src): the language with calls, arguments and return, and its
 meaning by direct evaluation. `gas` counts the instructions the machine may still dispatch; the
 evaluator spends it exactly as the machine does.
 */
module HocFunctions {
  import opened HocLanguage

  const NFRAME: nat := 100

  datatype Kind = Func | Proc | Main

  datatype FExpr =
    | KConst(v: Num)
    | KVar(x: Name)
    | KArg(k: nat)                       // $1, $2, ...: k is at least 1
    | KAssign(x: Name, e: FExpr)
    | KArgAssign(k: nat, e: FExpr)
    | KNeg(e: FExpr)
    | KBin(op: BinOp, l: FExpr, r: FExpr)
    | KCall(f: Name, args: Args)

  datatype Args = NoArgs | MoreArgs(first: FExpr, rest: Args)

  datatype FStmt =
    | KEval(e: FExpr)
    | KPrint(e: FExpr)
    | KWhile(c: FExpr, s: FStmt)
    | KFor(init: FExpr, c: FExpr, post: FExpr, s: FStmt)
    | KIf(c: FExpr, s: FStmt)
    | KIfElse(c: FExpr, s: FStmt, t: FStmt)
    | KReturn                            // return
    | KReturnValue(e: FExpr)             // return expr
    | KProcedure(f: Name, args: Args)    // a procedure called as a statement
    | KEmpty
    | KThen(s: FStmt, t: FStmt)

  /** A definition: its body and the address its code starts at. */
  datatype Def = Def(kind: Kind, body: FStmt, at: nat)

  type Program = map<Name, Def>

  /** NoAddress stands for a jump through a cell that holds no address. */
  datatype FError = Base(err: Error) | NotEnoughArguments | CallTooDeep | ProcReturnsValue | FuncReturnsNothing
                  | NoAddress

  /** Global symbols and output, and the arguments of the current call. */
  datatype Data = Data(env: Env, args: seq<Num>)

  /**
   * The surroundings: what kind of body is running, how many calls are open, and whose meaning a bare
   * `return` has when it is itself a part of if, while or for: that of the language, or that of the
   * code hoc emits, where the part has no address.
   */
  datatype Site = Site(kind: Kind, depth: nat, emitted: bool)

  datatype EResult = Val(v: Num, data: Data, gas: nat) | EFail(err: FError, env: Env) | EOut
  datatype AResult = Vals(vs: seq<Num>, data: Data, gas: nat) | AFail(err: FError, env: Env) | AOut
  datatype SResult =
    | Norm(data: Data, gas: nat)
    | Ret(v: Option<Num>, env: Env, gas: nat)
    | SFail(err: FError, env: Env)
    | SOut

  function Count(args: Args): nat {
    match args
    case NoArgs => 0
    case MoreArgs(_, rest) => 1 + Count(rest)
  }

  /** A result of the hoc5 operations as one of this evaluator. */
  function OfEval(r: EvalResult, data: Data, gas: nat): EResult {
    match r
    case Ok(v, env) => Val(v, data.(env := env), gas)
    case Fail(err, env) => EFail(Base(err), env)
  }

  /** One more instruction, which pushes onto a stack of height h. */
  function PushOne(v: Num, data: Data, h: nat, gas: nat): EResult {
    if gas == 0 then EOut else if h >= NSTACK then EFail(Base(StackOverflow), data.env) else Val(v, data, gas - 1)
  }

  function Evaluate(A: Arith, P: Program, e: FExpr, s: Site, data: Data, h: nat, gas: nat): (r: EResult)
    ensures r.Val? ==> r.gas < gas && |r.data.args| == |data.args|
    decreases gas, e, 0
  {
    match e
    case KConst(v) => PushOne(v, data, h, gas)
    case KArg(k) =>
      if gas == 0 then EOut
      else if k < 1 || k > |data.args| then EFail(NotEnoughArguments, data.env)
      else PushOne(data.args[k - 1], data, h, gas)
    case KVar(x) =>
      if gas == 0 then EOut
      else if h >= NSTACK then EFail(Base(StackOverflow), data.env)
      else if gas == 1 then EOut
      else OfEval(Lookup(x, data.env), data, gas - 2)
    case KAssign(x, e1) =>
      (match Evaluate(A, P, e1, s, data, h, gas)
       case Val(v, d1, g1) =>
         if g1 == 0 then EOut
         else if h + 1 >= NSTACK then EFail(Base(StackOverflow), d1.env)
         else if g1 == 1 then EOut
         else OfEval(Store(x, v, d1.env), d1, g1 - 2)
       case other => other)
    case KArgAssign(k, e1) =>
      (match Evaluate(A, P, e1, s, data, h, gas)
       case Val(v, d1, g1) =>
         if g1 == 0 then EOut
         else if k < 1 || k > |d1.args| then EFail(NotEnoughArguments, d1.env)
         else Val(v, d1.(args := d1.args[k - 1 := v]), g1 - 1)
       case other => other)
    case KNeg(e1) =>
      (match Evaluate(A, P, e1, s, data, h, gas)
       case Val(v, d1, g1) => if g1 == 0 then EOut else Val(A.negate(v), d1, g1 - 1)
       case other => other)
    case KBin(op, l, r) =>
      (match Evaluate(A, P, l, s, data, h, gas)
       case Val(x, d1, g1) =>
         (match Evaluate(A, P, r, s, d1, h + 1, g1)
          case Val(y, d2, g2) => if g2 == 0 then EOut else OfEval(OfCalc(Apply(A, op, x, y), d2.env), d2, g2 - 1)
          case other => other)
       case other => other)
    case KCall(f, args) =>
      (match Invoke(A, P, f, args, s, data, h, gas)
       case Ret(Some(v), env, g1) => Val(v, EvalArgs(A, P, args, s, data, h, gas).data.(env := env), g1)
       case Ret(None, env, _) => EFail(Base(StackUnderflow), env)
       case Norm(d1, _) => EFail(Base(BadCode), d1.env)
       case SFail(err, env) => EFail(err, env)
       case SOut => EOut)
  }

  function EvalArgs(A: Arith, P: Program, args: Args, s: Site, data: Data, h: nat, gas: nat): (r: AResult)
    ensures r.Vals? ==> r.gas <= gas && |r.vs| == Count(args) && |r.data.args| == |data.args|
    decreases gas, args, 0
  {
    match args
    case NoArgs => Vals([], data, gas)
    case MoreArgs(e, rest) =>
      match Evaluate(A, P, e, s, data, h, gas)
      case EFail(err, env) => AFail(err, env)
      case EOut => AOut
      case Val(v, d1, g1) =>
        match EvalArgs(A, P, rest, s, d1, h + 1, g1)
        case Vals(vs, d2, g2) => Vals([v] + vs, d2, g2)
        case other => other
  }

  /** The arguments are evaluated onto the stack, then the body runs on them one call deeper. */
  function Invoke(A: Arith, P: Program, f: Name, args: Args, s: Site, data: Data, h: nat, gas: nat): (r: SResult)
    ensures r.Ret? ==> r.gas < gas && EvalArgs(A, P, args, s, data, h, gas).Vals?
    ensures !r.Norm?
    decreases gas, args, 1
  {
    match EvalArgs(A, P, args, s, data, h, gas)
    case AFail(err, env) => SFail(err, env)
    case AOut => SOut
    case Vals(vs, d1, g1) =>
      if g1 == 0 then SOut
      else if f !in P then SFail(Base(BadCode), d1.env)
      else if s.depth >= NFRAME - 1 then SFail(CallTooDeep, d1.env)
      else
        match Perform(A, P, P[f].body, Site(P[f].kind, s.depth + 1, s.emitted), Data(d1.env, vs), h + |vs|, g1 - 1)
        case Norm(d2, g2) => Leave(Site(P[f].kind, s.depth + 1, s.emitted), d2.env, g2)
        case other => other
  }

  /** procret: `return` without a value, or the end of the body. */
  function Leave(s: Site, env: Env, gas: nat): (r: SResult)
    ensures !r.Norm? && (r.Ret? ==> r.gas < gas && r.v == None)
  {
    if gas == 0 then SOut
    else if s.kind == Func then SFail(FuncReturnsNothing, env)
    else if s.depth == 0 then SFail(Base(BadCode), env)
    else Ret(None, env, gas - 1)
  }

  /** One condition: its value and what is left, or the failure as a statement result. */
  function OfCond(r: EResult): SResult {
    match r
    case Val(_, d, g) => Norm(d, g)
    case EFail(err, env) => SFail(err, env)
    case EOut => SOut
  }

  function Perform(A: Arith, P: Program, st: FStmt, s: Site, data: Data, h: nat, gas: nat): (r: SResult)
    ensures r.Norm? ==> r.gas <= gas && |r.data.args| == |data.args|
    ensures r.Ret? ==> r.gas < gas
    decreases gas, st, 0
  {
    match st
    case KEmpty => Norm(data, gas)
    case KThen(s1, s2) =>
      (match Perform(A, P, s1, s, data, h, gas)
       case Norm(d1, g1) => Perform(A, P, s2, s, d1, h, g1)
       case other => other)
    case KEval(e) =>
      (match Evaluate(A, P, e, s, data, h, gas)
       case Val(_, d1, g1) => if g1 == 0 then SOut else Norm(d1, g1 - 1)
       case other => OfCond(other))
    case KPrint(e) =>
      (match Evaluate(A, P, e, s, data, h, gas)
       case Val(v, d1, g1) => if g1 == 0 then SOut else Norm(d1.(env := d1.env.(out := d1.env.out + [v])), g1 - 1)
       case other => OfCond(other))
    case KReturn => Leave(s, data.env, gas)
    case KReturnValue(e) =>
      (match Evaluate(A, P, e, s, data, h, gas)
       case Val(v, d1, g1) =>
         if g1 == 0 then SOut
         else if s.kind == Proc then SFail(ProcReturnsValue, d1.env)
         else if s.depth == 0 then SFail(Base(BadCode), d1.env)
         else Ret(Some(v), d1.env, g1 - 1)
       case other => OfCond(other))
    case KProcedure(f, args) =>
      (match Invoke(A, P, f, args, s, data, h, gas)
       case Ret(None, env, g1) => Norm(EvalArgs(A, P, args, s, data, h, gas).data.(env := env), g1)
       case Ret(Some(_), env, _) => SFail(Base(BadCode), env)
       case other => other)
    case KIf(c, s1) =>
      if gas == 0 then SOut
      else
        (match Evaluate(A, P, c, s, data, h, gas - 1)
         case Val(v, d1, g1) => if A.isZero(v) then Norm(d1, g1) else PartOf(A, P, s1, s, d1, h, g1)
         case other => OfCond(other))
    case KIfElse(c, s1, s2) =>
      if gas == 0 then SOut
      else
        (match Evaluate(A, P, c, s, data, h, gas - 1)
         case Val(v, d1, g1) => PartOf(A, P, if A.isZero(v) then s2 else s1, s, d1, h, g1)
         case other => OfCond(other))
    case KWhile(c, s1) => if gas == 0 then SOut else Turns(A, P, c, None, s1, s, data, h, gas - 1)
    case KFor(i, c, p, s1) =>
      if gas == 0 then SOut
      else
        (match Evaluate(A, P, i, s, data, h, gas - 1)
         case Val(_, d1, g1) => Turns(A, P, c, Some(p), s1, s, d1, h, g1)
         case other => OfCond(other))
  }

  /** A part of if, while or for; hoc fails at a bare `return`. */
  function PartOf(A: Arith, P: Program, st: FStmt, s: Site, data: Data, h: nat, gas: nat): (r: SResult)
    ensures r.Norm? ==> r.gas <= gas && |r.data.args| == |data.args|
    ensures r.Ret? ==> r.gas < gas
    decreases gas, st, 1
  {
    if s.emitted && st.KReturn? then SFail(NoAddress, data.env) else Perform(A, P, st, s, data, h, gas)
  }

  /** The turns of a loop: test, body, and for `for` the post expression. */
  function Turns(A: Arith, P: Program, c: FExpr, post: Option<FExpr>, body: FStmt, s: Site, data: Data, h: nat,
                 gas: nat): (r: SResult)
    ensures r.Norm? ==> r.gas <= gas && |r.data.args| == |data.args|
    ensures r.Ret? ==> r.gas < gas
    decreases gas, c, 1
  {
    match Evaluate(A, P, c, s, data, h, gas)
    case Val(v, d1, g1) =>
      if A.isZero(v) then Norm(d1, g1)
      else
        (match PartOf(A, P, body, s, d1, h, g1)
         case Norm(d2, g2) =>
           (match PostOf(A, P, post, s, d2, h, g2)
            case Norm(d3, g3) => Turns(A, P, c, post, body, s, d3, h, g3)
            case other => other)
         case other => other)
    case other => OfCond(other)
  }

  /** The post expression of a `for`; nothing for a `while`. */
  function PostOf(A: Arith, P: Program, post: Option<FExpr>, s: Site, data: Data, h: nat, gas: nat): (r: SResult)
    ensures r.Norm? ==> r.gas <= gas && |r.data.args| == |data.args|
    ensures !r.Ret?
    decreases gas, post, 2
  {
    match post
    case None => Norm(data, gas)
    case Some(p) => OfCond(Evaluate(A, P, p, s, data, h, gas))
  }
}
