/** What each operator and each variable access of hoc computes, for the machine and for direct evaluation. */
module HocOperators {
  import opened HocLanguage
  import opened HocMachine

  /**
   * x op y, operator by operator: an error, or a number.  Relations and logic give the numbers
   * that stand for true and false, and a number is true unless it is zero.
   */
  ghost predicate Means(A: Arith, op: BinOp, x: Num, y: Num, c: Calc) {
    && (op == Add ==> c == Result(A.arith(Add, x, y)))
    && (op == Sub ==> c == Result(A.arith(Sub, x, y)))
    && (op == Mul ==> c == Result(A.arith(Mul, x, y)))
    && (op == Div && A.isZero(y) ==> c == Bad(DivisionByZero))
    && (op == Div && !A.isZero(y) ==> c == Result(A.arith(Div, x, y)))
    && (op == Pow && A.power(x, y).None? ==> c == Bad(MathError))
    && (op == Pow && A.power(x, y).Some? ==> c == Result(A.power(x, y).value))
    && (op in {Gt, Ge, Lt, Le, Eq, Ne} ==> c == Result(A.ofBool(A.compare(op, x, y))))
    && (op == And && (A.isZero(x) || A.isZero(y)) ==> c == Result(A.ofBool(false)))
    && (op == And && !A.isZero(x) && !A.isZero(y) ==> c == Result(A.ofBool(true)))
    && (op == Or && A.isZero(x) && A.isZero(y) ==> c == Result(A.ofBool(false)))
    && (op == Or && (!A.isZero(x) || !A.isZero(y)) ==> c == Result(A.ofBool(true)))
  }

  /** There is exactly one such number or error. */
  lemma OneMeaning(A: Arith, op: BinOp, x: Num, y: Num) returns (c: Calc)
    ensures Means(A, op, x, y, c) && forall d :: Means(A, op, x, y, d) ==> d == c
  {
    c := Apply(A, op, x, y);
  }

  // ---------------------------------------------------------------- the machine

  /** The k topmost entries are replaced by v. */
  ghost predicate Leaves(st: State, k: nat, v: Num, o: Outcome) {
    k <= |st.stack| && o == Halt(st.(stack := st.stack[..|st.stack| - k] + [NumD(v)]))
  }

  ghost predicate TwoNumbers(st: State, x: Num, y: Num) {
    2 <= |st.stack| <= NSTACK && st.stack[|st.stack| - 2] == NumD(x) && st.stack[|st.stack| - 1] == NumD(y)
  }

  /** With two numbers on top of the stack, the upper one is the right operand. */
  ghost predicate EndsAs(A: Arith, op: BinOp, st: State, o: Outcome) {
    forall x, y, c :: TwoNumbers(st, x, y) && Means(A, op, x, y, c) ==>
      if c.Result? then Leaves(st, 2, c.v, o) else o == Crash(c.err, st.env)
  }

  lemma BinaryEnds(A: Arith, op: BinOp, st: State)
    ensures EndsAs(A, op, st, Binary(A, op, st))
  {
    forall x, y, c | TwoNumbers(st, x, y) && Means(A, op, x, y, c)
      ensures var o := Binary(A, op, st); if c.Result? then Leaves(st, 2, c.v, o) else o == Crash(c.err, st.env)
    {
      var d := OneMeaning(A, op, x, y);
      assert c == Apply(A, op, x, y);
    }
  }

  /** Every instruction without an address: what it takes from the stack, puts there, stores and prints. */
  lemma SimpleMeans(A: Arith, prog: seq<Cell>, i: Instr, st: State)
    requires |st.stack| < NSTACK
    ensures var o, n := Simple(A, prog, i, st), |st.stack|;
            && (forall v :: i.ConstPush? && Operand(prog, st.pc) == NumRef(v) ==>
                 o == Halt(State(st.pc + 1, st.stack + [NumD(v)], st.env)))
            && (forall x :: i.VarPush? && Operand(prog, st.pc) == SymRef(x) ==>
                 o == Halt(State(st.pc + 1, st.stack + [SymD(x)], st.env)))
            && (i.BinI? ==> EndsAs(A, i.op, st, o))
            && (n > 0 && st.stack[n - 1].NumD? ==> UnaryMeans(A, prog, i, st, st.stack[n - 1].v, o))
            && (n > 0 && st.stack[n - 1].SymD? && i.EvalVar? ==> ReadMeans(st, st.stack[n - 1].x, o))
            && (n > 1 && st.stack[n - 1].SymD? && st.stack[n - 2].NumD? && i.AssignVar? ==>
                 WriteMeans(st, st.stack[n - 1].x, st.stack[n - 2].v, o))
  {
    if i.BinI? { BinaryEnds(A, i.op, st); }
    hide Apply, Binary, Lookup, Store, EndsAs;
    UnaryIs(A, prog, i, st);
    MemoryIs(A, prog, i, st);
  }

  /** Instructions on the number v on top. */
  ghost predicate UnaryMeans(A: Arith, prog: seq<Cell>, i: Instr, st: State, v: Num, o: Outcome)
    requires st.stack != []
  {
    var below := st.stack[..|st.stack| - 1];
    && (i.NegI? ==> Leaves(st, 1, A.negate(v), o))
    && (i.NotI? ==> Leaves(st, 1, A.ofBool(A.isZero(v)), o))
    && (i.XPop? ==> o == Halt(State(st.pc, below, st.env)))
    && (i.PrintTop? || i.PrExpr? ==> o == Halt(State(st.pc, below, Env(st.env.vars, st.env.out + [v]))))
    && (i.Bltin? ==> forall f :: Operand(prog, st.pc) == FnRef(f) ==>
         if A.builtin(f, v).None? then o == Crash(MathError, st.env)
         else o == Halt(State(st.pc + 1, below + [NumD(A.builtin(f, v).value)], st.env)))
  }

  /** The variable x on top is replaced by its value. */
  ghost predicate ReadMeans(st: State, x: Name, o: Outcome)
    requires st.stack != []
  {
    x in st.env.vars ==>
      && (forall v :: st.env.vars[x] == Value(v) ==> Leaves(st, 1, v, o))
      && (st.env.vars[x] == Undef ==> o == Crash(UndefinedVariable(x), st.env))
  }

  /** The variable x on top takes the value v below it, which stays. */
  ghost predicate WriteMeans(st: State, x: Name, v: Num, o: Outcome)
    requires |st.stack| > 1
  {
    x in st.env.vars ==>
      if st.env.vars[x].Other? then o == Crash(NonVariable(x), st.env)
      else o == Halt(State(st.pc, st.stack[..|st.stack| - 1], Env(st.env.vars[x := Value(v)], st.env.out)))
  }

  lemma UnaryIs(A: Arith, prog: seq<Cell>, i: Instr, st: State)
    requires |st.stack| < NSTACK
    ensures var n := |st.stack|;
            n > 0 && st.stack[n - 1].NumD? ==> UnaryMeans(A, prog, i, st, st.stack[n - 1].v, Simple(A, prog, i, st))
  {
    hide Apply, Binary, Lookup, Store;
  }

  lemma MemoryIs(A: Arith, prog: seq<Cell>, i: Instr, st: State)
    requires |st.stack| < NSTACK
    ensures var o, n := Simple(A, prog, i, st), |st.stack|;
            && (n > 0 && st.stack[n - 1].SymD? && i.EvalVar? ==> ReadMeans(st, st.stack[n - 1].x, o))
            && (n > 1 && st.stack[n - 1].SymD? && st.stack[n - 2].NumD? && i.AssignVar? ==>
                 WriteMeans(st, st.stack[n - 1].x, st.stack[n - 2].v, o))
  {
    hide Apply, Binary, Unary;
    var n := |st.stack|;
    if n > 1 { assert st.stack[..n - 1] == st.stack[..n - 2] + [st.stack[n - 2]]; }
  }

  // ---------------------------------------------------------------- direct evaluation

  /** Bin: the left operand first, and then the operator's meaning. */
  lemma BinMeans(A: Arith, op: BinOp, l: Expr, r: Expr, env: Env, h: int, c: Calc)
    requires EvalExpr(A, l, env, h).Ok?
    requires EvalExpr(A, r, EvalExpr(A, l, env, h).env, h + 1).Ok?
    requires var x := EvalExpr(A, l, env, h);
             Means(A, op, x.v, EvalExpr(A, r, x.env, h + 1).v, c)
    ensures var env' := EvalExpr(A, r, EvalExpr(A, l, env, h).env, h + 1).env;
            EvalExpr(A, Bin(op, l, r), env, h) == if c.Result? then Ok(c.v, env') else Fail(c.err, env')
  {
    var x := EvalExpr(A, l, env, h);
    var y := EvalExpr(A, r, x.env, h + 1);
    assert EvalExpr(A, Bin(op, l, r), env, h) == OfCalc(Apply(A, op, x.v, y.v), y.env);
    hide EvalExpr;
    var d := OneMeaning(A, op, x.v, y.v);
    assert c == Apply(A, op, x.v, y.v);
  }

  /** A variable gives its value or that it has none. */
  lemma VarMeans(A: Arith, x: Name, env: Env, h: int)
    requires x in env.vars && h < NSTACK
    ensures var r := EvalExpr(A, Var(x), env, h);
            && (forall v :: env.vars[x] == Value(v) ==> r == Ok(v, env))
            && (env.vars[x] == Undef ==> r == Fail(UndefinedVariable(x), env))
  {
  }

  /** An assignment gives its value, and from then on the variable does, while others stay as they were. */
  lemma AssignMeans(A: Arith, x: Name, e: Expr, env: Env, h: int, y: Name)
    requires EvalExpr(A, e, env, h).Ok? && h + 1 < NSTACK
    requires var o := EvalExpr(A, e, env, h); x in o.env.vars && y in o.env.vars
    ensures var o, r := EvalExpr(A, e, env, h), EvalExpr(A, Assign(x, e), env, h);
            if o.env.vars[x].Other? then r == Fail(NonVariable(x), o.env)
            else && r.Ok? && r.v == o.v && r.env.out == o.env.out && y in r.env.vars
                 && EvalExpr(A, Var(x), r.env, h) == Ok(o.v, r.env)
                 && (y != x ==> r.env.vars[y] == o.env.vars[y])
  {
  }

  lemma BuiltinMeans(A: Arith, f: nat, e: Expr, env: Env, h: int)
    requires EvalExpr(A, e, env, h).Ok?
    ensures var o, r := EvalExpr(A, e, env, h), EvalExpr(A, Builtin(f, e), env, h);
            if A.builtin(f, o.v).None? then r == Fail(MathError, o.env) else r == Ok(A.builtin(f, o.v).value, o.env)
  {
  }

  lemma NegMeans(A: Arith, e: Expr, env: Env, h: int)
    requires EvalExpr(A, e, env, h).Ok?
    ensures var o := EvalExpr(A, e, env, h);
            && EvalExpr(A, Neg(e), env, h) == Ok(A.negate(o.v), o.env)
            && EvalExpr(A, Not(e), env, h) == Ok(A.ofBool(A.isZero(o.v)), o.env)
  {
  }

  /** A condition holds unless its value is zero; without an else part nothing is done then. */
  lemma IfMeans(A: Arith, c: Expr, s: Stmt, t: Stmt, env: Env, h: int, fuel: nat)
    requires EvalExpr(A, c, env, h).Ok?
    ensures var o := EvalExpr(A, c, env, h);
            && (A.isZero(o.v) ==> Exec(A, If(c, s), env, h, fuel) == Done(o.env))
            && (A.isZero(o.v) ==> Exec(A, IfElse(c, s, t), env, h, fuel) == Exec(A, t, o.env, h, fuel))
            && (!A.isZero(o.v) ==> Exec(A, If(c, s), env, h, fuel) == Exec(A, s, o.env, h, fuel))
            && (!A.isZero(o.v) ==> Exec(A, IfElse(c, s, t), env, h, fuel) == Exec(A, s, o.env, h, fuel))
  {
    hide EvalExpr;
  }

  /** A loop is its body and the loop again, if its condition holds. */
  lemma WhileUnfolds(A: Arith, c: Expr, s: Stmt, env: Env, h: int, fuel: nat)
    ensures Exec(A, While(c, s), env, h, fuel + 1) == Exec(A, If(c, Then(s, While(c, s))), env, h, fuel)
  {
  }
}
