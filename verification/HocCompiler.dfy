/**
 The code the grammar actions of hoc5/hoc.c leave in prog, and the proof that running it has the
 effect of direct evaluation.
 */
module HocCompiler {
  import opened HocLanguage
  import opened HocMachine

  function ExprCode(e: Expr): (c: seq<Cell>)
    ensures |c| >= 2
  {
    match e
    case Const(v) => [Op(ConstPush), NumRef(v)]
    case Var(x) => [Op(VarPush), SymRef(x), Op(EvalVar)]
    case Assign(x, e1) => ExprCode(e1) + [Op(VarPush), SymRef(x), Op(AssignVar)]
    case Builtin(f, e1) => ExprCode(e1) + [Op(Bltin), FnRef(f)]
    case Neg(e1) => ExprCode(e1) + [Op(NegI)]
    case Not(e1) => ExprCode(e1) + [Op(NotI)]
    case Bin(op, l, r) => ExprCode(l) + ExprCode(r) + [Op(BinI(op))]
  }

  function Size(s: Stmt): nat {
    match s
    case Eval(e) => |ExprCode(e)| + 1
    case Print(e) => |ExprCode(e)| + 1
    case Show(e) => |ExprCode(e)| + 1
    case While(c, s1) => 3 + |ExprCode(c)| + 1 + Size(s1) + 1
    case If(c, s1) => 4 + |ExprCode(c)| + 1 + Size(s1) + 1
    case IfElse(c, s1, s2) => 4 + |ExprCode(c)| + 1 + Size(s1) + 1 + Size(s2) + 1
    case Empty => 0
    case Then(s1, s2) => Size(s1) + Size(s2)
  }

  /** The code of s when it starts at address p: jumps are absolute. */
  function StmtCode(s: Stmt, p: nat): (c: seq<Cell>)
    ensures |c| == Size(s)
  {
    match s
    case Eval(e) => ExprCode(e) + [Op(XPop)]
    case Print(e) => ExprCode(e) + [Op(PrExpr)]
    case Show(e) => ExprCode(e) + [Op(PrintTop)]
    case While(c, s1) =>
      var body := p + 3 + |ExprCode(c)| + 1;
      [Op(WhileCode), Addr(body), Addr(p + Size(s))] + (ExprCode(c) + [Stop]) + (StmtCode(s1, body) + [Stop])
    case If(c, s1) =>
      var thn := p + 4 + |ExprCode(c)| + 1;
      [Op(IfCode), Addr(thn), Stop, Addr(p + Size(s))] + (ExprCode(c) + [Stop]) + (StmtCode(s1, thn) + [Stop])
    case IfElse(c, s1, s2) =>
      var thn := p + 4 + |ExprCode(c)| + 1;
      var els := thn + Size(s1) + 1;
      [Op(IfCode), Addr(thn), Addr(els), Addr(p + Size(s))] + (ExprCode(c) + [Stop]) + (StmtCode(s1, thn) + [Stop])
          + (StmtCode(s2, els) + [Stop])
    case Empty => []
    case Then(s1, s2) => StmtCode(s1, p) + StmtCode(s2, p + Size(s1))
  }

  ghost predicate CodeAt(prog: seq<Cell>, p: nat, c: seq<Cell>) {
    p + |c| <= |prog| && prog[p..p + |c|] == c
  }

  lemma CodeSplit(prog: seq<Cell>, p: nat, a: seq<Cell>, b: seq<Cell>)
    requires CodeAt(prog, p, a + b)
    ensures CodeAt(prog, p, a) && CodeAt(prog, p + |a|, b)
  {
    assert prog[p..p + |a|] == (a + b)[..|a|];
    assert prog[p + |a|..p + |a| + |b|] == (a + b)[|a|..];
  }

  lemma CellAt(prog: seq<Cell>, p: nat, c: seq<Cell>, k: nat)
    requires CodeAt(prog, p, c) && k < |c|
    ensures Operand(prog, p + k) == c[k]
  {
    assert prog[p..p + |c|][k] == c[k];
  }

  // ---------------------------------------------------------------- expressions

  function Steps(e: Expr): nat {
    match e
    case Const(_) => 1
    case Var(_) => 2
    case Assign(_, e1) => Steps(e1) + 2
    case Builtin(_, e1) => Steps(e1) + 1
    case Neg(e1) => Steps(e1) + 1
    case Not(e1) => Steps(e1) + 1
    case Bin(_, l, r) => Steps(l) + Steps(r) + 1
  }

  /** k dispatches from st do what r says: push one value and go on at q, or stop with the error. */
  ghost predicate Yields(A: Arith, prog: seq<Cell>, f: nat, k: nat, st: State, q: nat, r: EvalResult) {
    match r
    case Ok(v, env) => Run(A, prog, f + k, st) == Run(A, prog, f, State(q, st.stack + [NumD(v)], env))
    case Fail(err, env) => Run(A, prog, f + k, st) == Crash(err, env)
  }

  lemma PushPop(st: State, d: Datum)
    ensures var st1 := st.(stack := st.stack + [d]); Top(st1) == d && Popped(st1) == st
  {
    assert (st.stack + [d])[..|st.stack|] == st.stack;
  }

  function Continue(A: Arith, prog: seq<Cell>, f: nat, o: Outcome): Outcome {
    if o.Halt? then Run(A, prog, f, o.st) else o
  }

  lemma OneStep(A: Arith, prog: seq<Cell>, f: nat, i: Instr, st: State)
    requires Operand(prog, st.pc) == Op(i) && IsSimple(i)
    ensures Run(A, prog, f + 1, st) == Continue(A, prog, f, Simple(A, prog, i, st.(pc := st.pc + 1)))
  {
  }

  /** Every expression pushes exactly its value, or fails as direct evaluation does. */
  lemma {:induction false} ExprRuns(A: Arith, prog: seq<Cell>, e: Expr, f: nat, st: State)
    requires CodeAt(prog, st.pc, ExprCode(e)) && |st.stack| <= NSTACK
    ensures Yields(A, prog, f, Steps(e), st, st.pc + |ExprCode(e)|, EvalExpr(A, e, st.env, |st.stack|))
    decreases e, 0, 1
  {
    hide *;
    match e
    case Const(v) => ConstRuns(A, prog, v, f, st);
    case Var(x) => VarRuns(A, prog, x, f, st);
    case Assign(x, e1) => AssignRuns(A, prog, x, e1, f, st);
    case Builtin(g, e1) => UnaryRuns(A, prog, e, e1, [Op(Bltin), FnRef(g)], f, st);
    case Neg(e1) => UnaryRuns(A, prog, e, e1, [Op(NegI)], f, st);
    case Not(e1) => UnaryRuns(A, prog, e, e1, [Op(NotI)], f, st);
    case Bin(op, l, r) => BinRuns(A, prog, op, l, r, f, st);
  }

  lemma ConstRuns(A: Arith, prog: seq<Cell>, v: Num, f: nat, st: State)
    requires CodeAt(prog, st.pc, ExprCode(Const(v))) && |st.stack| <= NSTACK
    ensures Yields(A, prog, f, Steps(Const(v)), st, st.pc + |ExprCode(Const(v))|,
            EvalExpr(A, Const(v), st.env, |st.stack|))
  {
    var code := ExprCode(Const(v));
    CellAt(prog, st.pc, code, 0); CellAt(prog, st.pc, code, 1);
    OneStep(A, prog, f, ConstPush, st);
  }

  lemma VarRuns(A: Arith, prog: seq<Cell>, x: Name, f: nat, st: State)
    requires CodeAt(prog, st.pc, ExprCode(Var(x))) && |st.stack| <= NSTACK
    ensures Yields(A, prog, f, Steps(Var(x)), st, st.pc + |ExprCode(Var(x))|, EvalExpr(A, Var(x), st.env, |st.stack|))
  {
    var p, code := st.pc, ExprCode(Var(x));
    hide Run, CodeAt, Lookup;
    CellAt(prog, p, code, 0); CellAt(prog, p, code, 1); CellAt(prog, p, code, 2);
    OneStep(A, prog, f + 1, VarPush, st);
    if |st.stack| < NSTACK {
      var st1 := st.(pc := p + 2, stack := st.stack + [SymD(x)]);
      OneStep(A, prog, f, EvalVar, st1);
      PushPop(st.(pc := p + 3), SymD(x));
    }
  }

  lemma BinEffect(A: Arith, prog: seq<Cell>, op: BinOp, st: State, x: Num, y: Num)
    ensures Simple(A, prog, BinI(op), st.(stack := st.stack + [NumD(x)] + [NumD(y)]))
            == PushCalc(st, Apply(A, op, x, y))
  {
    PushPop(st.(stack := st.stack + [NumD(x)]), NumD(y));
    PushPop(st, NumD(x));
  }

  lemma AssignEffect(A: Arith, prog: seq<Cell>, x: Name, st: State, v: Num)
    ensures Simple(A, prog, AssignVar, st.(stack := st.stack + [NumD(v)] + [SymD(x)]))
            == PushEval(st, Store(x, v, st.env))
  {
    hide Store;
    PushPop(st.(stack := st.stack + [NumD(v)]), SymD(x));
    PushPop(st, NumD(v));
  }

  /** What a unary instruction computes. */
  function UnaryCalc(A: Arith, e: Expr, v: Num): Calc
    requires e.Builtin? || e.Neg? || e.Not?
  {
    match e
    case Builtin(f, _) => OfOption(A.builtin(f, v))
    case Neg(_) => Result(A.negate(v))
    case Not(_) => Result(A.ofBool(A.isZero(v)))
  }

  lemma UnaryEffect(A: Arith, prog: seq<Cell>, e: Expr, st: State, v: Num)
    requires e.Builtin? || e.Neg? || e.Not?
    requires e.Builtin? ==> Operand(prog, st.pc) == FnRef(e.f)
    ensures var i := if e.Neg? then NegI else if e.Not? then NotI else Bltin;
            var st1 := if e.Builtin? then st.(pc := st.pc + 1) else st;
            Simple(A, prog, i, st.(stack := st.stack + [NumD(v)])) == PushCalc(st1, UnaryCalc(A, e, v))
  {
    PushPop(if e.Builtin? then st.(pc := st.pc + 1) else st, NumD(v));
  }

  lemma VarPushEffect(A: Arith, prog: seq<Cell>, x: Name, st: State)
    requires Operand(prog, st.pc) == SymRef(x)
    ensures Simple(A, prog, VarPush, st) == Push(st.(pc := st.pc + 1), SymD(x))
  {
  }

  lemma RoomFor(A: Arith, e: Expr, env: Env, h: int)
    requires EvalExpr(A, e, env, h).Ok?
    ensures h < NSTACK
  {
    HeightIrrelevant(A, e, env, h, h);
  }

  lemma {:induction false} BinRuns(A: Arith, prog: seq<Cell>, op: BinOp, l: Expr, r: Expr, f: nat, st: State)
    requires CodeAt(prog, st.pc, ExprCode(Bin(op, l, r))) && |st.stack| <= NSTACK
    ensures Yields(A, prog, f, Steps(Bin(op, l, r)), st, st.pc + |ExprCode(Bin(op, l, r))|,
            EvalExpr(A, Bin(op, l, r), st.env, |st.stack|))
    decreases Bin(op, l, r), 0, 0
  {
    hide Run, Simple, Apply, CodeAt;
    var p := st.pc;
    CodeSplit(prog, p, ExprCode(l) + ExprCode(r), [Op(BinI(op))]);
    CodeSplit(prog, p, ExprCode(l), ExprCode(r));
    ExprRuns(A, prog, l, f + 1 + Steps(r), st);
    var o := EvalExpr(A, l, st.env, |st.stack|);
    if o.Ok? {
      RoomFor(A, l, st.env, |st.stack|);
      var st1 := State(p + |ExprCode(l)|, st.stack + [NumD(o.v)], o.env);
      ExprRuns(A, prog, r, f + 1, st1);
      var o2 := EvalExpr(A, r, o.env, |st.stack| + 1);
      if o2.Ok? {
        var q := p + |ExprCode(l)| + |ExprCode(r)|;
        var st2 := State(q, st1.stack + [NumD(o2.v)], o2.env);
        CellAt(prog, q, [Op(BinI(op))], 0);
        OneStep(A, prog, f, BinI(op), st2);
        BinEffect(A, prog, op, State(q + 1, st.stack, o2.env), o.v, o2.v);
      }
    }
  }

  lemma {:induction false} AssignRuns(A: Arith, prog: seq<Cell>, x: Name, e1: Expr, f: nat, st: State)
    requires CodeAt(prog, st.pc, ExprCode(Assign(x, e1))) && |st.stack| <= NSTACK
    ensures Yields(A, prog, f, Steps(Assign(x, e1)), st, st.pc + |ExprCode(Assign(x, e1))|,
            EvalExpr(A, Assign(x, e1), st.env, |st.stack|))
    decreases e1, 1
  {
    hide Run, Store, Simple, CodeAt;
    var p, tail := st.pc, [Op(VarPush), SymRef(x), Op(AssignVar)];
    CodeSplit(prog, p, ExprCode(e1), tail);
    ExprRuns(A, prog, e1, f + 2, st);
    var o := EvalExpr(A, e1, st.env, |st.stack|);
    if o.Ok? {
      RoomFor(A, e1, st.env, |st.stack|);
      var q := p + |ExprCode(e1)|;
      CellAt(prog, q, tail, 0); CellAt(prog, q, tail, 1); CellAt(prog, q, tail, 2);
      var st1 := State(q, st.stack + [NumD(o.v)], o.env);
      OneStep(A, prog, f + 1, VarPush, st1);
      VarPushEffect(A, prog, x, st1.(pc := q + 1));
      if |st1.stack| < NSTACK {
        var st2 := State(q + 2, st1.stack + [SymD(x)], o.env);
        OneStep(A, prog, f, AssignVar, st2);
        AssignEffect(A, prog, x, State(q + 3, st.stack, o.env), o.v);
      }
    }
  }

  lemma {:induction false} UnaryRuns(A: Arith, prog: seq<Cell>, e: Expr, e1: Expr, tail: seq<Cell>, f: nat, st: State)
    requires e.Builtin? || e.Neg? || e.Not?
    requires e1 == e.e && tail == (if e.Neg? then [Op(NegI)] else if e.Not? then [Op(NotI)]
             else [Op(Bltin), FnRef(e.f)])
    requires CodeAt(prog, st.pc, ExprCode(e)) && |st.stack| <= NSTACK
    ensures Yields(A, prog, f, Steps(e), st, st.pc + |ExprCode(e)|, EvalExpr(A, e, st.env, |st.stack|))
    decreases e1, 1
  {
    hide Run, Simple, CodeAt;
    var p := st.pc;
    CodeSplit(prog, p, ExprCode(e1), tail);
    ExprRuns(A, prog, e1, f + 1, st);
    var o := EvalExpr(A, e1, st.env, |st.stack|);
    if o.Ok? {
      RoomFor(A, e1, st.env, |st.stack|);
      var q := p + |ExprCode(e1)|;
      CellAt(prog, q, tail, 0);
      if e.Builtin? { CellAt(prog, q, tail, 1); }
      var st1 := State(q, st.stack + [NumD(o.v)], o.env);
      OneStep(A, prog, f, tail[0].i, st1);
      UnaryEffect(A, prog, e, State(q + 1, st.stack, o.env), o.v);
    }
  }

  // ---------------------------------------------------------------- going on from one state to another

  /** Whatever st2 leads to, st1 leads to with k more units of fuel. */
  ghost predicate Forward(A: Arith, prog: seq<Cell>, k: nat, st1: State, st2: State) {
    forall g: nat {:trigger Run(A, prog, g, st2)} :: Run(A, prog, g, st2) != Running ==>
        Run(A, prog, g + k, st1) == Run(A, prog, g, st2)
  }

  /** Whatever st1 leads to, st2 leads to with the same fuel. */
  ghost predicate Backward(A: Arith, prog: seq<Cell>, st1: State, st2: State) {
    forall g: nat {:trigger Run(A, prog, g, st1)} :: Run(A, prog, g, st1) != Running ==>
        Run(A, prog, g, st2) == Run(A, prog, g, st1)
  }

  lemma ForwardTrans(A: Arith, prog: seq<Cell>, j: nat, k: nat, st1: State, st2: State, st3: State)
    requires Forward(A, prog, j, st1, st2) && Forward(A, prog, k, st2, st3)
    ensures Forward(A, prog, j + k, st1, st3)
  {
    hide Run;
    forall g: nat | Run(A, prog, g, st3) != Running
      ensures Run(A, prog, g + (j + k), st1) == Run(A, prog, g, st3)
    {
      assert Run(A, prog, g + k, st2) == Run(A, prog, g, st3);
      assert Run(A, prog, (g + k) + j, st1) == Run(A, prog, g + k, st2);
      assert g + (j + k) == (g + k) + j;
    }
  }

  lemma BackwardTrans(A: Arith, prog: seq<Cell>, st1: State, st2: State, st3: State)
    requires Backward(A, prog, st1, st2) && Backward(A, prog, st2, st3)
    ensures Backward(A, prog, st1, st3)
  {
    hide Run;
  }

  /** One dispatch that halts in st2, given enough fuel, connects the two states. */
  lemma DispatchConnects(A: Arith, prog: seq<Cell>, k: nat, i: Instr, st1: State, st2: State)
    requires Operand(prog, st1.pc) == Op(i) && Step(A, prog, k, i, st1.(pc := st1.pc + 1)) == Halt(st2)
    ensures Forward(A, prog, k + 1, st1, st2) && Backward(A, prog, st1, st2)
  {
    hide Step;
    var at := st1.(pc := st1.pc + 1);
    forall g: nat | Run(A, prog, g, st2) != Running
      ensures Run(A, prog, g + (k + 1), st1) == Run(A, prog, g, st2)
    {
      StepMore(A, prog, k, g + k, i, at);
      RunMore(A, prog, g, g + k, st2);
      assert (g + (k + 1)) - 1 == g + k;
    }
    forall g: nat | Run(A, prog, g, st1) != Running
      ensures Run(A, prog, g, st2) == Run(A, prog, g, st1)
    {
      if g - 1 <= k {
        StepMore(A, prog, g - 1, k, i, at);
      } else {
        StepMore(A, prog, k, g - 1, i, at);
      }
      RunMore(A, prog, g - 1, g, st2);
    }
  }

  /** An exact number of dispatches connects the two states. */
  lemma ExactConnects(A: Arith, prog: seq<Cell>, k: nat, st1: State, st2: State)
    requires forall g: nat {:trigger Run(A, prog, g, st2)} :: Run(A, prog, g + k, st1) == Run(A, prog, g, st2)
    ensures Forward(A, prog, k, st1, st2) && Backward(A, prog, st1, st2)
  {
    forall g: nat
      ensures Run(A, prog, g, st1) != Running ==> Run(A, prog, g, st2) == Run(A, prog, g, st1)
    {
      if g >= k {
        var h: nat := g - k;
        assert Run(A, prog, h + k, st1) == Run(A, prog, h, st2);
        if Run(A, prog, h, st2) != Running { RunMore(A, prog, h, g, st2); }
      } else {
        assert Run(A, prog, 0 + k, st1) == Run(A, prog, 0, st2);
        RunLess(A, prog, g, k, st1);
      }
    }
  }

  lemma RunLess(A: Arith, prog: seq<Cell>, f: nat, g: nat, st: State)
    requires f <= g && Run(A, prog, g, st) == Running
    ensures Run(A, prog, f, st) == Running
  {
    if Run(A, prog, f, st) != Running { RunMore(A, prog, f, g, st); }
  }

  // ---------------------------------------------------------------- statements

  /** The code of s at st.pc does what r says, leaving the stack as it found it. */
  ghost predicate Performs(A: Arith, prog: seq<Cell>, k: nat, st: State, q: nat, r: ExecResult) {
    match r
    case Done(env) => Forward(A, prog, k, st, State(q, st.stack, env)) && Backward(A, prog, st, State(q, st.stack, env))
    case Abort(err, env) => Run(A, prog, k, st) == Crash(err, env)
    case Timeout => true
  }

  /** The code of s, followed by STOP and run by a nested execute, does what r says. */
  ghost predicate Completes(A: Arith, prog: seq<Cell>, k: nat, st: State, q: nat, r: ExecResult) {
    match r
    case Done(env) => Run(A, prog, k, st) == Halt(State(q, st.stack, env))
    case Abort(err, env) => Run(A, prog, k, st) == Crash(err, env)
    case Timeout => true
  }

  /** An instruction that re-enters execute does what r says. */
  ghost predicate Carries(o: Outcome, stack: seq<Datum>, q: nat, r: ExecResult) {
    match r
    case Done(env) => o == Halt(State(q, stack, env))
    case Abort(err, env) => o == Crash(err, env)
    case Timeout => true
  }

  /** Every statement has the effect of direct evaluation and leaves the stack as it found it. */
  lemma {:induction false} StmtRuns(A: Arith, prog: seq<Cell>, s: Stmt, st: State, fuel: nat) returns (k: nat)
    requires CodeAt(prog, st.pc, StmtCode(s, st.pc)) && |st.stack| <= NSTACK
    ensures Performs(A, prog, k, st, st.pc + Size(s), Exec(A, s, st.env, |st.stack|, fuel))
    decreases fuel, s, 2
  {
    hide *;
    match s
    case Eval(e) => k := DropRuns(A, prog, s, st, fuel);
    case Print(e) => k := DropRuns(A, prog, s, st, fuel);
    case Show(e) => k := DropRuns(A, prog, s, st, fuel);
    case Empty => k := EmptyRuns(A, prog, st, fuel);
    case Then(s1, s2) => k := ThenRuns(A, prog, s, st, fuel);
    case If(c, s1) =>
      k := BranchRuns(A, prog, s, st, fuel);
      k := CarriesConnects(A, prog, k, IfCode, s, st, st.pc + Size(s), Exec(A, s, st.env, |st.stack|, fuel));
    case IfElse(c, s1, s2) =>
      k := BranchRuns(A, prog, s, st, fuel);
      k := CarriesConnects(A, prog, k, IfCode, s, st, st.pc + Size(s), Exec(A, s, st.env, |st.stack|, fuel));
    case While(c, s1) =>
      k := LoopRuns(A, prog, s, st.pc, st.(pc := st.pc + 1), fuel);
      k := CarriesConnects(A, prog, k, WhileCode, s, st, st.pc + Size(s), Exec(A, s, st.env, |st.stack|, fuel));
  }

  lemma {:induction false} ThenRuns(A: Arith, prog: seq<Cell>, s: Stmt, st: State, fuel: nat) returns (k: nat)
    requires s.Then? && CodeAt(prog, st.pc, StmtCode(s, st.pc)) && |st.stack| <= NSTACK
    ensures Performs(A, prog, k, st, st.pc + Size(s), Exec(A, s, st.env, |st.stack|, fuel))
    decreases fuel, s, 1
  {
    hide Run, Forward, Backward, CodeAt;
    var p, s1, s2 := st.pc, s.s, s.t;
    CodeSplit(prog, p, StmtCode(s1, p), StmtCode(s2, p + Size(s1)));
    k := StmtRuns(A, prog, s1, st, fuel);
    var o := Exec(A, s1, st.env, |st.stack|, fuel);
    if o.Done? {
      var mid := State(p + Size(s1), st.stack, o.env);
      var k2 := StmtRuns(A, prog, s2, mid, fuel);
      k := ThenConnects(A, prog, k, k2, st, mid, p + Size(s), Exec(A, s2, o.env, |st.stack|, fuel));
    }
  }

  lemma EmptyRuns(A: Arith, prog: seq<Cell>, st: State, fuel: nat) returns (k: nat)
    ensures Performs(A, prog, k, st, st.pc + Size(Empty), Exec(A, Empty, st.env, |st.stack|, fuel))
  {
    hide Run;
    k := 0;
    StaysConnected(A, prog, st);
  }

  lemma StaysConnected(A: Arith, prog: seq<Cell>, st: State)
    ensures Forward(A, prog, 0, st, st) && Backward(A, prog, st, st)
  {
    hide Run;
  }

  lemma ThenConnects(A: Arith, prog: seq<Cell>, j: nat, k: nat, st: State, mid: State, q: nat, r: ExecResult)
                     returns (n: nat)
    requires Forward(A, prog, j, st, mid) && Backward(A, prog, st, mid) && Performs(A, prog, k, mid, q, r)
             && mid.stack == st.stack
    ensures Performs(A, prog, n, st, q, r)
  {
    hide Run, Forward, Backward;
    n := j + k;
    match r
    case Done(env) =>
      ForwardTrans(A, prog, j, k, st, mid, State(q, st.stack, env));
      BackwardTrans(A, prog, st, mid, State(q, st.stack, env));
    case Abort(err, env) => ForwardAbort(A, prog, j, k, st, mid);
    case Timeout =>
  }

  lemma ForwardAbort(A: Arith, prog: seq<Cell>, j: nat, k: nat, st: State, mid: State)
    requires Forward(A, prog, j, st, mid) && Run(A, prog, k, mid) != Running
    ensures Run(A, prog, j + k, st) == Run(A, prog, k, mid)
  {
    hide Run;
    assert k + j == j + k;
  }

  /** The two instructions that re-enter execute. */
  function Again(A: Arith, prog: seq<Cell>, fuel: nat, i: Instr, save: nat, st: State): Outcome {
    if i.WhileCode? then Loop(A, prog, fuel, save, st) else Branch(A, prog, fuel, save, st)
  }

  lemma CarriesConnects(A: Arith, prog: seq<Cell>, k: nat, i: Instr, s: Stmt, st: State, q: nat, r: ExecResult)
                        returns (n: nat)
    requires CodeAt(prog, st.pc, StmtCode(s, st.pc))
             && (if i.WhileCode? then s.While? else i.IfCode? && (s.If? || s.IfElse?))
    requires Carries(Again(A, prog, k, i, st.pc + 1, st.(pc := st.pc + 1)), st.stack, q, r)
    ensures Performs(A, prog, n, st, q, r)
  {
    hide Forward, Backward;
    n := k + 1;
    assert Step(A, prog, k, i, st.(pc := st.pc + 1)) == Again(A, prog, k, i, st.pc + 1, st.(pc := st.pc + 1));
    CellAt(prog, st.pc, StmtCode(s, st.pc), 0);
    if r.Done? { DispatchConnects(A, prog, k, i, st, State(q, st.stack, r.env)); }
  }

  /** expr followed by xpop or prexpr. */
  lemma DropRuns(A: Arith, prog: seq<Cell>, s: Stmt, st: State, fuel: nat) returns (k: nat)
    requires (s.Eval? || s.Print? || s.Show?) && CodeAt(prog, st.pc, StmtCode(s, st.pc)) && |st.stack| <= NSTACK
    ensures Performs(A, prog, k, st, st.pc + Size(s), Exec(A, s, st.env, |st.stack|, fuel))
  {
    hide Run, Forward, Backward, CodeAt;
    var e, i := s.e, if s.Eval? then XPop else if s.Print? then PrExpr else PrintTop;
    k := Steps(e) + 1;
    CodeSplit(prog, st.pc, ExprCode(e), [Op(i)]);
    var o := EvalExpr(A, e, st.env, |st.stack|);
    if o.Fail? {
      ExprRuns(A, prog, e, 1, st);
    } else {
      var st2 := State(st.pc + Size(s), st.stack, Exec(A, s, st.env, |st.stack|, fuel).env);
      forall g: nat ensures Run(A, prog, g + k, st) == Run(A, prog, g, st2) { DropExact(A, prog, s, g, st); }
      ExactConnects(A, prog, k, st, st2);
    }
  }

  lemma DropExact(A: Arith, prog: seq<Cell>, s: Stmt, g: nat, st: State)
    requires (s.Eval? || s.Print? || s.Show?) && CodeAt(prog, st.pc, StmtCode(s, st.pc)) && |st.stack| <= NSTACK
    requires EvalExpr(A, s.e, st.env, |st.stack|).Ok?
    ensures Run(A, prog, g + (Steps(s.e) + 1), st)
            == Run(A, prog, g, State(st.pc + Size(s), st.stack, Exec(A, s, st.env, |st.stack|, 0).env))
  {
    hide Run, CodeAt;
    var e, i := s.e, if s.Eval? then XPop else if s.Print? then PrExpr else PrintTop;
    CodeSplit(prog, st.pc, ExprCode(e), [Op(i)]);
    var q, o := st.pc + |ExprCode(e)|, EvalExpr(A, e, st.env, |st.stack|);
    CellAt(prog, q, [Op(i)], 0);
    ExprRuns(A, prog, e, g + 1, st);
    OneStep(A, prog, g, i, State(q, st.stack + [NumD(o.v)], o.env));
    PushPop(State(q + 1, st.stack, o.env), NumD(o.v));
    assert (g + 1) + Steps(e) == g + (Steps(e) + 1);
  }

  /** A condition followed by STOP leaves its value on the stack. */
  lemma TestRuns(A: Arith, prog: seq<Cell>, c: Expr, f: nat, at: nat, st: State)
    requires CodeAt(prog, at, ExprCode(c) + [Stop]) && |st.stack| <= NSTACK && f > Steps(c)
    ensures var o := EvalExpr(A, c, st.env, |st.stack|);
            Test(A, prog, f, at, st) == if o.Fail? then Crash(o.err, o.env)
                                        else Halt(State(at + |ExprCode(c)|, st.stack + [NumD(o.v)], o.env))
  {
    hide CodeAt, Simple;
    CodeSplit(prog, at, ExprCode(c), [Stop]);
    CellAt(prog, at + |ExprCode(c)|, [Stop], 0);
    ExprRuns(A, prog, c, f - Steps(c), st.(pc := at));
  }

  /** A nested execute of a statement followed by STOP. */
  lemma {:induction false} BodyRuns(A: Arith, prog: seq<Cell>, s: Stmt, st: State, fuel: nat) returns (k: nat)
    requires CodeAt(prog, st.pc, StmtCode(s, st.pc) + [Stop]) && |st.stack| <= NSTACK
    ensures Completes(A, prog, k, st, st.pc + Size(s), Exec(A, s, st.env, |st.stack|, fuel))
    decreases fuel, s, 3
  {
    hide CodeAt, Backward, Step, Exec;
    CodeSplit(prog, st.pc, StmtCode(s, st.pc), [Stop]);
    CellAt(prog, st.pc + Size(s), [Stop], 0);
    k := StmtRuns(A, prog, s, st, fuel);
    var o := Exec(A, s, st.env, |st.stack|, fuel);
    if o.Done? {
      var end := State(st.pc + Size(s), st.stack, o.env);
      assert Run(A, prog, 1, end) == Halt(end);
      k := 1 + k;
    }
  }

  lemma WhileLayout(prog: seq<Cell>, s: Stmt, p: nat)
    requires s.While? && CodeAt(prog, p, StmtCode(s, p))
    ensures var body := p + 3 + |ExprCode(s.c)| + 1;
            Operand(prog, p) == Op(WhileCode) && Operand(prog, p + 1) == Addr(body)
                && Operand(prog, p + 2) == Addr(p + Size(s))
            && CodeAt(prog, p + 3, ExprCode(s.c) + [Stop]) && CodeAt(prog, body, StmtCode(s.s, body) + [Stop])
  {
    hide CodeAt;
    var body := p + 3 + |ExprCode(s.c)| + 1;
    var head := [Op(WhileCode), Addr(body), Addr(p + Size(s))];
    var cond, tail := ExprCode(s.c) + [Stop], StmtCode(s.s, body) + [Stop];
    CellAt(prog, p, StmtCode(s, p), 0); CellAt(prog, p, StmtCode(s, p), 1); CellAt(prog, p, StmtCode(s, p), 2);
    CodeSplit(prog, p, head + cond, tail);
    CodeSplit(prog, p, head, cond);
  }

  function Bigger(a: nat, b: nat): (m: nat)
    ensures m >= a && m >= b
  {
    if a < b then b else a
  }

  /** One turn of whilecode: the body, then the loop again. */
  lemma LoopTurns(A: Arith, prog: seq<Cell>, f: nat, save: nat, st: State, mid: State, v: Num, body: nat)
    requires Test(A, prog, f, save + 2, st) == Halt(mid.(stack := mid.stack + [NumD(v)]))
    requires !A.isZero(v) && Operand(prog, save) == Addr(body)
    ensures var b := Run(A, prog, f, mid.(pc := body));
            Loop(A, prog, f + 1, save, st) == if b.Halt? then Loop(A, prog, f, save, b.st) else b
  {
    hide Test, Run;
    PushPop(mid, NumD(v));
  }

  /** whilecode ends when the test yields zero or fails. */
  lemma LoopEnds(A: Arith, prog: seq<Cell>, f: nat, save: nat, st: State)
    requires !Test(A, prog, f, save + 2, st).Halt?
    ensures Loop(A, prog, f + 1, save, st) == Test(A, prog, f, save + 2, st)
  {
    hide Test, Run;
  }

  /** The code of a while statement at p, entered at the cell after the opcode. */
  lemma {:induction false} LoopRuns(A: Arith, prog: seq<Cell>, s: Stmt, p: nat, st: State, fuel: nat) returns (k: nat)
    requires s.While? && CodeAt(prog, p, StmtCode(s, p)) && |st.stack| <= NSTACK
    ensures Carries(Again(A, prog, k, WhileCode, p + 1, st), st.stack, p + Size(s),
            Exec(A, s, st.env, |st.stack|, fuel))
    decreases fuel, s, 1
  {
    hide CodeAt, Run, Simple, Test, EvalExpr, StmtCode, ExprCode, Steps;
    WhileLayout(prog, s, p);
    k := Steps(s.c) + 2;
    if fuel > 0 {
      TestRuns(A, prog, s.c, k - 1, p + 3, st);
      var o := EvalExpr(A, s.c, st.env, |st.stack|);
      if o.Ok? {
        var mid := State(p + 3 + |ExprCode(s.c)|, st.stack, o.env);
        PushPop(mid, NumD(o.v));
        if !A.isZero(o.v) {
          var body := State(p + 3 + |ExprCode(s.c)| + 1, st.stack, o.env);
          var k1 := BodyRuns(A, prog, s.s, body, fuel - 1);
          var o1 := Exec(A, s.s, o.env, |st.stack|, fuel - 1);
          if o1.Done? {
            var st2 := State(body.pc + Size(s.s), st.stack, o1.env);
            var k2 := LoopRuns(A, prog, s, p, st2, fuel - 1);
            var f := Bigger(Steps(s.c) + 1, Bigger(k1, k2));
            TestRuns(A, prog, s.c, f, p + 3, st);
            RunMore(A, prog, k1, f, body);
            if !Exec(A, s, o1.env, |st.stack|, fuel - 1).Timeout? { LoopMore(A, prog, k2, f, p + 1, st2); }
            k := f + 1;
            assert Loop(A, prog, k, p + 1, st) == Loop(A, prog, f, p + 1, st2);
          } else if o1.Abort? {
            var f := Bigger(Steps(s.c) + 1, k1);
            TestRuns(A, prog, s.c, f, p + 3, st);
            RunMore(A, prog, k1, f, body);
            k := f + 1;
            assert Loop(A, prog, k, p + 1, st) == Crash(o1.err, o1.env);
          }
        }
      }
    }
  }

  /** Where the parts of an if statement at p begin. */
  function ThenAt(s: Stmt, p: nat): nat
    requires s.If? || s.IfElse?
  {
    p + 4 + |ExprCode(s.c)| + 1
  }

  function ElseAt(s: Stmt, p: nat): nat
    requires s.If? || s.IfElse?
  {
    ThenAt(s, p) + Size(s.s) + 1
  }

  lemma IfCells(prog: seq<Cell>, s: Stmt, p: nat)
    requires (s.If? || s.IfElse?) && CodeAt(prog, p, StmtCode(s, p))
    ensures Operand(prog, p) == Op(IfCode) && Operand(prog, p + 1) == Addr(ThenAt(s, p))
            && Operand(prog, p + 3) == Addr(p + Size(s))
    ensures Operand(prog, p + 2) == if s.If? then Stop else Addr(ElseAt(s, p))
  {
    hide CodeAt, ExprCode, Size;
    CellAt(prog, p, StmtCode(s, p), 0); CellAt(prog, p, StmtCode(s, p), 1);
    CellAt(prog, p, StmtCode(s, p), 2); CellAt(prog, p, StmtCode(s, p), 3);
  }

  lemma IfParts(prog: seq<Cell>, s: Stmt, p: nat)
    requires (s.If? || s.IfElse?) && CodeAt(prog, p, StmtCode(s, p))
    ensures CodeAt(prog, p + 4, ExprCode(s.c) + [Stop])
    ensures CodeAt(prog, ThenAt(s, p), StmtCode(s.s, ThenAt(s, p)) + [Stop])
    ensures s.IfElse? ==> CodeAt(prog, ElseAt(s, p), StmtCode(s.t, ElseAt(s, p)) + [Stop])
  {
    hide CodeAt, ExprCode;
    var thn, els := ThenAt(s, p), ElseAt(s, p);
    var head := [Op(IfCode), Addr(thn), if s.If? then Stop else Addr(els), Addr(p + Size(s))];
    var cond, tail := ExprCode(s.c) + [Stop], StmtCode(s.s, thn) + [Stop];
    if s.IfElse? {
      assert StmtCode(s, p) == (head + cond + tail) + (StmtCode(s.t, els) + [Stop]);
      CodeSplit(prog, p, head + cond + tail, StmtCode(s.t, els) + [Stop]);
    } else {
      assert StmtCode(s, p) == head + cond + tail;
    }
    CodeSplit(prog, p, head + cond, tail);
    CodeSplit(prog, p, head, cond);
  }

  /** ifcode runs the chosen part and goes on after the statement. */
  lemma BranchTakes(A: Arith, prog: seq<Cell>, f: nat, save: nat, st: State, mid: State, v: Num, part: nat, end: nat)
    requires Test(A, prog, f, save + 3, st) == Halt(mid.(stack := mid.stack + [NumD(v)]))
    requires Operand(prog, if A.isZero(v) then save + 1 else save) == Addr(part) && Operand(prog, save + 2) == Addr(end)
    ensures var b := Run(A, prog, f, mid.(pc := part));
            Branch(A, prog, f + 1, save, st) == if b.Halt? then Halt(b.st.(pc := end)) else b
  {
    hide Test, Run;
    PushPop(mid, NumD(v));
  }

  lemma {:induction false} BranchRuns(A: Arith, prog: seq<Cell>, s: Stmt, st: State, fuel: nat) returns (k: nat)
    requires (s.If? || s.IfElse?) && CodeAt(prog, st.pc, StmtCode(s, st.pc)) && |st.stack| <= NSTACK
    ensures Carries(Again(A, prog, k, IfCode, st.pc + 1, st.(pc := st.pc + 1)), st.stack, st.pc + Size(s),
            Exec(A, s, st.env, |st.stack|, fuel))
    decreases fuel, s, 1
  {
    hide *;
    var o := EvalExpr(A, s.c, st.env, |st.stack|);
    if o.Fail? || (A.isZero(o.v) && s.If?) {
      k := BranchSkips(A, prog, s, st, fuel);
    } else {
      k := BranchEnters(A, prog, s, st, fuel);
    }
  }

  lemma BranchSkips(A: Arith, prog: seq<Cell>, s: Stmt, st: State, fuel: nat) returns (k: nat)
    requires (s.If? || s.IfElse?) && CodeAt(prog, st.pc, StmtCode(s, st.pc)) && |st.stack| <= NSTACK
    requires var o := EvalExpr(A, s.c, st.env, |st.stack|); o.Fail? || (A.isZero(o.v) && s.If?)
    ensures Carries(Again(A, prog, k, IfCode, st.pc + 1, st.(pc := st.pc + 1)), st.stack, st.pc + Size(s),
            Exec(A, s, st.env, |st.stack|, fuel))
  {
    hide CodeAt, Run, Test, EvalExpr, StmtCode, ExprCode, Steps, ThenAt, ElseAt, Size;
    var p, st0 := st.pc, st.(pc := st.pc + 1);
    IfCells(prog, s, p);
    IfParts(prog, s, p);
    k := Steps(s.c) + 2;
    TestRuns(A, prog, s.c, k - 1, p + 4, st0);
    var o := EvalExpr(A, s.c, st.env, |st.stack|);
    if o.Ok? { PushPop(State(p + 4 + |ExprCode(s.c)|, st.stack, o.env), NumD(o.v)); }
  }

  lemma {:induction false} BranchEnters(A: Arith, prog: seq<Cell>, s: Stmt, st: State, fuel: nat) returns (k: nat)
    requires (s.If? || s.IfElse?) && CodeAt(prog, st.pc, StmtCode(s, st.pc)) && |st.stack| <= NSTACK
    requires var o := EvalExpr(A, s.c, st.env, |st.stack|); o.Ok? && (!A.isZero(o.v) || s.IfElse?)
    ensures Carries(Again(A, prog, k, IfCode, st.pc + 1, st.(pc := st.pc + 1)), st.stack, st.pc + Size(s),
            Exec(A, s, st.env, |st.stack|, fuel))
    decreases fuel, s, 0
  {
    hide CodeAt, Run, Test, EvalExpr, StmtCode, ExprCode, Steps, ThenAt, ElseAt, Size, Branch;
    var p, st0, o := st.pc, st.(pc := st.pc + 1), EvalExpr(A, s.c, st.env, |st.stack|);
    IfCells(prog, s, p);
    IfParts(prog, s, p);
    var s1, at := if A.isZero(o.v) then s.t else s.s, if A.isZero(o.v) then ElseAt(s, p) else ThenAt(s, p);
    var mid := State(p + 4 + |ExprCode(s.c)|, st.stack, o.env);
    var k1 := BodyRuns(A, prog, s1, mid.(pc := at), fuel);
    var f := Bigger(Steps(s.c) + 1, k1);
    TestRuns(A, prog, s.c, f, p + 4, st0);
    BranchTakes(A, prog, f, p + 1, st0, mid, o.v, at, p + Size(s));
    assert Exec(A, s, st.env, |st.stack|, fuel) == Exec(A, s1, o.env, |st.stack|, fuel);
    hide Exec;
    if !Exec(A, s1, o.env, |st.stack|, fuel).Timeout? { RunMore(A, prog, k1, f, mid.(pc := at)); }
    k := f + 1;
  }
}
