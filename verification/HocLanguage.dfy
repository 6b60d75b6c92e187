/**
 The hoc5 language (hoc5/hoc.y) and its meaning by direct evaluation.
 Numbers and their operations are left uninterpreted: everything holds for any arithmetic.
 */
module HocLanguage {

  type Num(==, !new)
  type Name = string

  datatype Option<T> = None | Some(value: T)

  datatype BinOp = Add | Sub | Mul | Div | Pow | Gt | Ge | Lt | Le | Eq | Ne | And | Or

  /** The arithmetic of the machine: `arith` for + - * /, `compare` for the six relations. */
  datatype Arith = Arith(
    arith: (BinOp, Num, Num) -> Num,
    compare: (BinOp, Num, Num) -> bool,
    power: (Num, Num) -> Option<Num>,
    builtin: (nat, Num) -> Option<Num>,
    negate: Num -> Num,
    isZero: Num -> bool,
    ofBool: bool -> Num)

  datatype Error = StackOverflow | StackUnderflow | UndefinedVariable(x: Name) | NonVariable(x: Name)
                 | DivisionByZero | MathError | BadCode

  datatype Expr =
    | Const(v: Num)
    | Var(x: Name)
    | Assign(x: Name, e: Expr)
    | Builtin(f: nat, e: Expr)
    | Bin(op: BinOp, l: Expr, r: Expr)
    | Neg(e: Expr)
    | Not(e: Expr)

  datatype Stmt =
    | Eval(e: Expr)
    | Print(e: Expr)                 // print expr
    | Show(e: Expr)                  // a line that is an expression: its value is shown
    | While(c: Expr, s: Stmt)
    | If(c: Expr, s: Stmt)
    | IfElse(c: Expr, s: Stmt, t: Stmt)
    | Empty                          // stmtlist: nothing
    | Then(s: Stmt, t: Stmt)         // stmtlist: stmtlist stmt

  /** A symbol-table entry; `Other` stands for built-ins and keywords. */
  datatype Symbol = Undef | Value(v: Num) | Other

  datatype Env = Env(vars: map<Name, Symbol>, out: seq<Num>)

  const NSTACK: nat := 256

  // ---------------------------------------------------------------- operators

  datatype Calc = Result(v: Num) | Bad(err: Error)

  function Apply(A: Arith, op: BinOp, x: Num, y: Num): Calc {
    match op
    case Div => if A.isZero(y) then Bad(DivisionByZero) else Result(A.arith(op, x, y))
    case Pow => OfOption(A.power(x, y))
    case And => Result(A.ofBool(!A.isZero(x) && !A.isZero(y)))
    case Or => Result(A.ofBool(!A.isZero(x) || !A.isZero(y)))
    case Add | Sub | Mul => Result(A.arith(op, x, y))
    case _ => Result(A.ofBool(A.compare(op, x, y)))
  }

  function OfOption(o: Option<Num>): Calc {
    match o
    case None => Bad(MathError)
    case Some(v) => Result(v)
  }

  // ---------------------------------------------------------------- direct evaluation

  datatype EvalResult = Ok(v: Num, env: Env) | Fail(err: Error, env: Env)

  /** The value of e, evaluated with h operands already waiting: both operands of every operator are
      evaluated, left first, and the operand stack holds at most NSTACK entries. */
  function EvalExpr(A: Arith, e: Expr, env: Env, h: int): EvalResult {
    match e
    case Const(v) => if h >= NSTACK then Fail(StackOverflow, env) else Ok(v, env)
    case Var(x) =>
      if h >= NSTACK then Fail(StackOverflow, env)
      else Lookup(x, env)
    case Assign(x, e1) =>
      (match EvalExpr(A, e1, env, h)
       case Fail(err, env1) => Fail(err, env1)
       case Ok(v, env1) => if h + 1 >= NSTACK then Fail(StackOverflow, env1) else Store(x, v, env1))
    case Builtin(f, e1) =>
      (match EvalExpr(A, e1, env, h)
       case Fail(err, env1) => Fail(err, env1)
       case Ok(v, env1) => OfCalc(OfOption(A.builtin(f, v)), env1))
    case Neg(e1) =>
      (match EvalExpr(A, e1, env, h)
       case Fail(err, env1) => Fail(err, env1)
       case Ok(v, env1) => Ok(A.negate(v), env1))
    case Not(e1) =>
      (match EvalExpr(A, e1, env, h)
       case Fail(err, env1) => Fail(err, env1)
       case Ok(v, env1) => Ok(A.ofBool(A.isZero(v)), env1))
    case Bin(op, l, r) =>
      match EvalExpr(A, l, env, h)
      case Fail(err, env1) => Fail(err, env1)
      case Ok(x, env1) =>
        match EvalExpr(A, r, env1, h + 1)
        case Fail(err, env2) => Fail(err, env2)
        case Ok(y, env2) => OfCalc(Apply(A, op, x, y), env2)
  }

  function OfCalc(c: Calc, env: Env): EvalResult {
    match c
    case Result(v) => Ok(v, env)
    case Bad(err) => Fail(err, env)
  }

  function Lookup(x: Name, env: Env): EvalResult {
    if x !in env.vars then Fail(BadCode, env)
    else match env.vars[x]
         case Value(v) => Ok(v, env)
         case Undef => Fail(UndefinedVariable(x), env)
         case Other => Fail(BadCode, env)
  }

  function Store(x: Name, v: Num, env: Env): EvalResult {
    if x !in env.vars then Fail(BadCode, env)
    else if env.vars[x].Other? then Fail(NonVariable(x), env)
    else Ok(v, env.(vars := env.vars[x := Value(v)]))
  }

  datatype ExecResult = Done(env: Env) | Abort(err: Error, env: Env) | Timeout

  /** The effect of s; `fuel` bounds the number of turns of any one loop. */
  function Exec(A: Arith, s: Stmt, env: Env, h: int, fuel: nat): ExecResult
    decreases fuel, s
  {
    match s
    case Eval(e) =>
      (match EvalExpr(A, e, env, h)
       case Fail(err, env1) => Abort(err, env1)
       case Ok(_, env1) => Done(env1))
    case Print(e) =>
      (match EvalExpr(A, e, env, h)
       case Fail(err, env1) => Abort(err, env1)
       case Ok(v, env1) => Done(env1.(out := env1.out + [v])))
    case Show(e) =>
      (match EvalExpr(A, e, env, h)
       case Fail(err, env1) => Abort(err, env1)
       case Ok(v, env1) => Done(env1.(out := env1.out + [v])))
    case Empty => Done(env)
    case Then(s1, s2) =>
      (match Exec(A, s1, env, h, fuel)
       case Done(env1) => Exec(A, s2, env1, h, fuel)
       case other => other)
    case If(c, s1) =>
      (match EvalExpr(A, c, env, h)
       case Fail(err, env1) => Abort(err, env1)
       case Ok(v, env1) => if A.isZero(v) then Done(env1) else Exec(A, s1, env1, h, fuel))
    case IfElse(c, s1, s2) =>
      (match EvalExpr(A, c, env, h)
       case Fail(err, env1) => Abort(err, env1)
       case Ok(v, env1) => Exec(A, if A.isZero(v) then s2 else s1, env1, h, fuel))
    case While(c, s1) =>
      if fuel == 0 then Timeout
      else
        match EvalExpr(A, c, env, h)
        case Fail(err, env1) => Abort(err, env1)
        case Ok(v, env1) =>
          if A.isZero(v) then Done(env1)
          else
            match Exec(A, s1, env1, h, fuel - 1)
            case Done(env2) => Exec(A, s, env2, h, fuel - 1)
            case other => other
  }

  // ---------------------------------------------------------------- the operand stack a program needs

  function Max(a: nat, b: nat): nat { if a < b then b else a }

  function Need(e: Expr): (n: nat)
    ensures n >= 1
  {
    match e
    case Const(_) => 1
    case Var(_) => 1
    case Assign(_, e1) => Max(Need(e1), 2)
    case Builtin(_, e1) => Need(e1)
    case Neg(e1) => Need(e1)
    case Not(e1) => Need(e1)
    case Bin(_, l, r) => Max(Need(l), 1 + Need(r))
  }

  function NeedStmt(s: Stmt): nat {
    match s
    case Eval(e) => Need(e)
    case Print(e) => Need(e)
    case Show(e) => Need(e)
    case While(c, s1) => Max(Need(c), NeedStmt(s1))
    case If(c, s1) => Max(Need(c), NeedStmt(s1))
    case IfElse(c, s1, s2) => Max(Need(c), Max(NeedStmt(s1), NeedStmt(s2)))
    case Empty => 0
    case Then(s1, s2) => Max(NeedStmt(s1), NeedStmt(s2))
  }

  /** Below the limit the height of the stack does not matter; beyond it no evaluation completes. */
  lemma {:induction false} HeightIrrelevant(A: Arith, e: Expr, env: Env, h: int, k: int)
    ensures h + Need(e) <= NSTACK && k + Need(e) <= NSTACK ==> EvalExpr(A, e, env, h) == EvalExpr(A, e, env, k)
    ensures h + Need(e) > NSTACK ==> EvalExpr(A, e, env, h).Fail?
  {
    match e
    case Const(_) =>
    case Var(_) =>
    case Assign(_, e1) => HeightIrrelevant(A, e1, env, h, k);
    case Builtin(_, e1) => HeightIrrelevant(A, e1, env, h, k);
    case Neg(e1) => HeightIrrelevant(A, e1, env, h, k);
    case Not(e1) => HeightIrrelevant(A, e1, env, h, k);
    case Bin(op, l, r) =>
      HeightIrrelevant(A, l, env, h, k);
      var o := EvalExpr(A, l, env, h);
      if o.Ok? { HeightIrrelevant(A, r, o.env, h + 1, k + 1); }
  }

  lemma {:induction false} StmtHeightIrrelevant(A: Arith, s: Stmt, env: Env, h: int, k: int, fuel: nat)
    requires h + NeedStmt(s) <= NSTACK && k + NeedStmt(s) <= NSTACK
    ensures Exec(A, s, env, h, fuel) == Exec(A, s, env, k, fuel)
    decreases fuel, s
  {
    match s
    case Eval(e) => HeightIrrelevant(A, e, env, h, k);
    case Print(e) => HeightIrrelevant(A, e, env, h, k);
    case Show(e) => HeightIrrelevant(A, e, env, h, k);
    case Empty =>
    case Then(s1, s2) =>
      StmtHeightIrrelevant(A, s1, env, h, k, fuel);
      var o := Exec(A, s1, env, h, fuel);
      if o.Done? { StmtHeightIrrelevant(A, s2, o.env, h, k, fuel); }
    case If(c, s1) =>
      HeightIrrelevant(A, c, env, h, k);
      StmtHeightIrrelevant(A, s1, EvalExpr(A, c, env, h).env, h, k, fuel);
    case IfElse(c, s1, s2) =>
      HeightIrrelevant(A, c, env, h, k);
      StmtHeightIrrelevant(A, s1, EvalExpr(A, c, env, h).env, h, k, fuel);
      StmtHeightIrrelevant(A, s2, EvalExpr(A, c, env, h).env, h, k, fuel);
    case While(c, s1) =>
      HeightIrrelevant(A, c, env, h, k);
      var o := EvalExpr(A, c, env, h);
      if fuel > 0 && o.Ok? {
        StmtHeightIrrelevant(A, s1, o.env, h, k, fuel - 1);
        var b := Exec(A, s1, o.env, h, fuel - 1);
        if b.Done? { StmtHeightIrrelevant(A, s, b.env, h, k, fuel - 1); }
      }
  }

  // ---------------------------------------------------------------- programs the parser accepts

  /** The lexer returns VAR only for symbols that are variables or still undefined. */
  predicate IsVar(env: Env, x: Name) { x in env.vars && !env.vars[x].Other? }

  predicate Known(env: Env, e: Expr) {
    match e
    case Const(_) => true
    case Var(x) => IsVar(env, x)
    case Assign(x, e1) => IsVar(env, x) && Known(env, e1)
    case Builtin(_, e1) => Known(env, e1)
    case Neg(e1) => Known(env, e1)
    case Not(e1) => Known(env, e1)
    case Bin(_, l, r) => Known(env, l) && Known(env, r)
  }

  predicate KnownStmt(env: Env, s: Stmt) {
    match s
    case Eval(e) => Known(env, e)
    case Print(e) => Known(env, e)
    case Show(e) => Known(env, e)
    case While(c, s1) => Known(env, c) && KnownStmt(env, s1)
    case If(c, s1) => Known(env, c) && KnownStmt(env, s1)
    case IfElse(c, s1, s2) => Known(env, c) && KnownStmt(env, s1) && KnownStmt(env, s2)
    case Empty => true
    case Then(s1, s2) => KnownStmt(env, s1) && KnownStmt(env, s2)
  }

  /** The errors a parsed program can meet. */
  predicate Ordinary(err: Error) { !err.BadCode? && !err.NonVariable? && !err.StackUnderflow? }

  ghost predicate SameVars(env: Env, env1: Env) { forall x :: IsVar(env, x) ==> IsVar(env1, x) }

  lemma {:induction false} EvalOrdinary(A: Arith, e: Expr, env: Env, h: int)
    requires Known(env, e)
    ensures var r := EvalExpr(A, e, env, h); SameVars(env, r.env) && (r.Fail? ==> Ordinary(r.err))
  {
    match e
    case Const(_) =>
    case Var(_) =>
    case Assign(_, e1) => EvalOrdinary(A, e1, env, h);
    case Builtin(_, e1) => EvalOrdinary(A, e1, env, h);
    case Neg(e1) => EvalOrdinary(A, e1, env, h);
    case Not(e1) => EvalOrdinary(A, e1, env, h);
    case Bin(op, l, r) =>
      EvalOrdinary(A, l, env, h);
      var o := EvalExpr(A, l, env, h);
      KnownStays(env, o.env, r);
      EvalOrdinary(A, r, o.env, h + 1);
  }

  lemma {:induction false} KnownStays(env: Env, env1: Env, e: Expr)
    requires Known(env, e) && SameVars(env, env1)
    ensures Known(env1, e)
  {
    match e
    case Const(_) =>
    case Var(_) =>
    case Assign(_, e1) => KnownStays(env, env1, e1);
    case Builtin(_, e1) => KnownStays(env, env1, e1);
    case Neg(e1) => KnownStays(env, env1, e1);
    case Not(e1) => KnownStays(env, env1, e1);
    case Bin(_, l, r) => KnownStays(env, env1, l); KnownStays(env, env1, r);
  }

  lemma {:induction false} KnownStmtStays(env: Env, env1: Env, s: Stmt)
    requires KnownStmt(env, s) && SameVars(env, env1)
    ensures KnownStmt(env1, s)
  {
    match s
    case Eval(e) => KnownStays(env, env1, e);
    case Print(e) => KnownStays(env, env1, e);
    case Show(e) => KnownStays(env, env1, e);
    case While(c, s1) => KnownStays(env, env1, c); KnownStmtStays(env, env1, s1);
    case If(c, s1) => KnownStays(env, env1, c); KnownStmtStays(env, env1, s1);
    case IfElse(c, s1, s2) => KnownStays(env, env1, c); KnownStmtStays(env, env1, s1); KnownStmtStays(env, env1, s2);
    case Empty =>
    case Then(s1, s2) => KnownStmtStays(env, env1, s1); KnownStmtStays(env, env1, s2);
  }

  lemma {:induction false} ExecOrdinary(A: Arith, s: Stmt, env: Env, h: int, fuel: nat)
    requires KnownStmt(env, s)
    ensures var r := Exec(A, s, env, h, fuel);
            !r.Timeout? ==> SameVars(env, r.env) && (r.Abort? ==> Ordinary(r.err))
    decreases fuel, s
  {
    match s
    case Eval(e) => EvalOrdinary(A, e, env, h);
    case Print(e) => EvalOrdinary(A, e, env, h);
    case Show(e) => EvalOrdinary(A, e, env, h);
    case Empty =>
    case Then(s1, s2) =>
      ExecOrdinary(A, s1, env, h, fuel);
      var o := Exec(A, s1, env, h, fuel);
      if o.Done? {
        KnownStmtStays(env, o.env, s2);
        ExecOrdinary(A, s2, o.env, h, fuel);
      }
    case If(c, s1) =>
      EvalOrdinary(A, c, env, h);
      var o := EvalExpr(A, c, env, h);
      KnownStmtStays(env, o.env, s1);
      ExecOrdinary(A, s1, o.env, h, fuel);
    case IfElse(c, s1, s2) =>
      EvalOrdinary(A, c, env, h);
      var o := EvalExpr(A, c, env, h);
      KnownStmtStays(env, o.env, s1); ExecOrdinary(A, s1, o.env, h, fuel);
      KnownStmtStays(env, o.env, s2); ExecOrdinary(A, s2, o.env, h, fuel);
    case While(c, s1) =>
      EvalOrdinary(A, c, env, h);
      var o := EvalExpr(A, c, env, h);
      if fuel > 0 && o.Ok? {
        KnownStmtStays(env, o.env, s1);
        ExecOrdinary(A, s1, o.env, h, fuel - 1);
        var b := Exec(A, s1, o.env, h, fuel - 1);
        if b.Done? {
          KnownStmtStays(env, b.env, s);
          ExecOrdinary(A, s, b.env, h, fuel - 1);
        }
      }
  }
}
