/**
 The correctness of the hoc5 compiler: running the compiled code and evaluating the program directly
 agree on variables, output, errors and on whether they end at all.
 */
module HocCorrect {
  import opened HocLanguage
  import opened HocMachine
  import opened HocCompiler

  // ---------------------------------------------------------------- programs that do not end

  /** While direct evaluation is still going after `fuel` turns, so is the machine. */
  lemma {:induction false} StmtDiverges(A: Arith, prog: seq<Cell>, s: Stmt, st: State, fuel: nat)
    requires CodeAt(prog, st.pc, StmtCode(s, st.pc)) && |st.stack| <= NSTACK
    requires Exec(A, s, st.env, |st.stack|, fuel) == Timeout
    ensures Run(A, prog, fuel, st) == Running
    decreases fuel, s, 1
  {
    hide Run, CodeAt;
    match s
    case Then(s1, s2) => ThenDiverges(A, prog, s, st, fuel);
    case While(c, s1) =>
      LoopDiverges(A, prog, s, st.pc, st.(pc := st.pc + 1), fuel);
      WhileLayout(prog, s, st.pc);
      StillLooping(A, prog, st, fuel);
    case If(c, s1) => BranchDiverges(A, prog, s, st, fuel);
    case IfElse(c, s1, s2) => BranchDiverges(A, prog, s, st, fuel);
    case _ =>
  }

  lemma StillLooping(A: Arith, prog: seq<Cell>, st: State, fuel: nat)
    requires Operand(prog, st.pc) == Op(WhileCode) && Loop(A, prog, fuel, st.pc + 1, st.(pc := st.pc + 1)) == Running
    ensures Run(A, prog, fuel, st) == Running
  {
    var at := st.(pc := st.pc + 1);
    if fuel > 0 && Loop(A, prog, fuel - 1, at.pc, at) != Running { LoopMore(A, prog, fuel - 1, fuel, at.pc, at); }
  }

  lemma {:induction false} ThenDiverges(A: Arith, prog: seq<Cell>, s: Stmt, st: State, fuel: nat)
    requires s.Then? && CodeAt(prog, st.pc, StmtCode(s, st.pc)) && |st.stack| <= NSTACK
    requires Exec(A, s, st.env, |st.stack|, fuel) == Timeout
    ensures Run(A, prog, fuel, st) == Running
    decreases fuel, s, 0
  {
    hide Run, CodeAt, Forward;
    var p := st.pc;
    CodeSplit(prog, p, StmtCode(s.s, p), StmtCode(s.t, p + Size(s.s)));
    var o := Exec(A, s.s, st.env, |st.stack|, fuel);
    if o.Timeout? {
      StmtDiverges(A, prog, s.s, st, fuel);
    } else {
      var mid := State(p + Size(s.s), st.stack, o.env);
      var k := StmtRuns(A, prog, s.s, st, fuel);
      StmtDiverges(A, prog, s.t, mid, fuel);
      assert Backward(A, prog, st, mid);
    }
  }

  lemma {:induction false} LoopDiverges(A: Arith, prog: seq<Cell>, s: Stmt, p: nat, st: State, fuel: nat)
    requires s.While? && CodeAt(prog, p, StmtCode(s, p)) && |st.stack| <= NSTACK
    requires Exec(A, s, st.env, |st.stack|, fuel) == Timeout
    ensures Loop(A, prog, fuel, p + 1, st) == Running
    decreases fuel, s, 0
  {
    hide *;
    if fuel > 0 {
      var o, f := EvalExpr(A, s.c, st.env, |st.stack|), fuel - 1;
      WhileTimesOut(A, s, st.env, |st.stack|, fuel);
      WhileLayout(prog, s, p);
      TestOrRunning(A, prog, s.c, f, p + 3, st);
      if Test(A, prog, f, p + 3, st) == Running {
        LoopEnds(A, prog, f, p + 1, st);
      } else {
        var mid := State(p + 3 + |ExprCode(s.c)|, st.stack, o.env);
        var body := mid.(pc := p + 3 + |ExprCode(s.c)| + 1);
        LoopTurns(A, prog, f, p + 1, st, mid, o.v, body.pc);
        var o1 := Exec(A, s.s, o.env, |st.stack|, f);
        if o1.Done? {
          BodyOrRunning(A, prog, s.s, body, f);
          CompletesDone(A, prog, f, body, body.pc + Size(s.s), o1);
          LoopDiverges(A, prog, s, p, State(body.pc + Size(s.s), st.stack, o1.env), f);
        } else {
          CodeSplit(prog, body.pc, StmtCode(s.s, body.pc), [Stop]);
          StmtDiverges(A, prog, s.s, body, f);
        }
      }
    } else {
      LoopWithoutFuel(A, prog, p + 1, st);
    }
  }

  lemma WhileTimesOut(A: Arith, s: Stmt, env: Env, h: int, fuel: nat)
    requires s.While? && fuel > 0 && Exec(A, s, env, h, fuel) == Timeout
    ensures var o := EvalExpr(A, s.c, env, h);
            o.Ok? && !A.isZero(o.v)
            && var b := Exec(A, s.s, o.env, h, fuel - 1);
               b == Timeout || (b.Done? && Exec(A, s, b.env, h, fuel - 1) == Timeout)
  {
    hide EvalExpr;
  }

  lemma CompletesDone(A: Arith, prog: seq<Cell>, k: nat, st: State, q: nat, r: ExecResult)
    requires r.Done?
    ensures Completes(A, prog, k, st, q, r) ==> Run(A, prog, k, st) == Halt(State(q, st.stack, r.env))
  {
    hide Run;
  }

  lemma LoopWithoutFuel(A: Arith, prog: seq<Cell>, save: nat, st: State)
    ensures Loop(A, prog, 0, save, st) == Running
  {
  }

  /** With any fuel the test either is still going or has the outcome of direct evaluation. */
  lemma TestOrRunning(A: Arith, prog: seq<Cell>, c: Expr, f: nat, at: nat, st: State)
    requires CodeAt(prog, at, ExprCode(c) + [Stop]) && |st.stack| <= NSTACK
    ensures var o, t := EvalExpr(A, c, st.env, |st.stack|), Test(A, prog, f, at, st);
            t == Running || t == if o.Fail? then Crash(o.err, o.env)
                                 else Halt(State(at + |ExprCode(c)|, st.stack + [NumD(o.v)], o.env))
  {
    hide CodeAt, Run, EvalExpr, ExprCode;
    var g := Bigger(f, Steps(c) + 1);
    TestRuns(A, prog, c, g, at, st);
    if Run(A, prog, f, st.(pc := at)) != Running { RunMore(A, prog, f, g, st.(pc := at)); }
  }

  lemma {:induction false} BodyOrRunning(A: Arith, prog: seq<Cell>, s: Stmt, st: State, f: nat)
    requires CodeAt(prog, st.pc, StmtCode(s, st.pc) + [Stop]) && |st.stack| <= NSTACK
    ensures var b := Run(A, prog, f, st);
            b == Running || (Exec(A, s, st.env, |st.stack|, f) != Timeout
                && Completes(A, prog, f, st, st.pc + Size(s), Exec(A, s, st.env, |st.stack|, f)))
    decreases f, s, 2
  {
    hide CodeAt, Run, Exec, StmtCode, Size;
    CodeSplit(prog, st.pc, StmtCode(s, st.pc), [Stop]);
    var o := Exec(A, s, st.env, |st.stack|, f);
    if o.Timeout? {
      StmtDiverges(A, prog, s, st, f);
    } else {
      var k := BodyRuns(A, prog, s, st, f);
      if Run(A, prog, f, st) != Running {
        if k <= f { RunMore(A, prog, k, f, st); } else { RunMore(A, prog, f, k, st); }
      }
    }
  }

  lemma {:induction false} BranchDiverges(A: Arith, prog: seq<Cell>, s: Stmt, st: State, fuel: nat)
    requires (s.If? || s.IfElse?) && CodeAt(prog, st.pc, StmtCode(s, st.pc)) && |st.stack| <= NSTACK
    requires Exec(A, s, st.env, |st.stack|, fuel) == Timeout
    ensures Run(A, prog, fuel, st) == Running
    decreases fuel, s, 0
  {
    hide CodeAt, EvalExpr, ExprCode, StmtCode, Size, Steps, ThenAt, ElseAt, Test, Run, Branch;
    var p, st0, o := st.pc, st.(pc := st.pc + 1), EvalExpr(A, s.c, st.env, |st.stack|);
    IfCells(prog, s, p);
    IfParts(prog, s, p);
    if fuel >= 2 {
      var f := fuel - 2;
      TestOrRunning(A, prog, s.c, f, p + 4, st0);
      if Test(A, prog, f, p + 4, st0) == Running {
        BranchEnds(A, prog, f, p + 1, st0);
      } else {
        var s1, at := if A.isZero(o.v) then s.t else s.s, if A.isZero(o.v) then ElseAt(s, p) else ThenAt(s, p);
        var mid := State(p + 4 + |ExprCode(s.c)|, st.stack, o.env);
        BranchTakes(A, prog, f, p + 1, st0, mid, o.v, at, p + Size(s));
        CodeSplit(prog, at, StmtCode(s1, at), [Stop]);
        StmtDiverges(A, prog, s1, mid.(pc := at), fuel);
        RunLess(A, prog, f, fuel, mid.(pc := at));
      }
    }
    StillBranching(A, prog, st, fuel);
  }

  lemma BranchEnds(A: Arith, prog: seq<Cell>, f: nat, save: nat, st: State)
    requires Test(A, prog, f, save + 3, st) == Running
    ensures Branch(A, prog, f + 1, save, st) == Running
  {
    hide Test, Run;
  }

  lemma StillBranching(A: Arith, prog: seq<Cell>, st: State, fuel: nat)
    requires Operand(prog, st.pc) == Op(IfCode)
    requires fuel >= 2 ==> Branch(A, prog, fuel - 1, st.pc + 1, st.(pc := st.pc + 1)) == Running
    ensures Run(A, prog, fuel, st) == Running
  {
    if fuel == 1 { assert Branch(A, prog, 0, st.pc + 1, st.(pc := st.pc + 1)) == Running; }
  }

  // ---------------------------------------------------------------- the theorem

  /** The machine's outcome is that of direct evaluation, with nothing left on the stack. */
  ghost predicate Agrees(o: Outcome, r: ExecResult) {
    match r
    case Done(env) => o.Halt? && o.st.stack == [] && o.st.env == env
    case Abort(err, env) => o == Crash(err, env)
    case Timeout => o == Running
  }

  /** prog holds the code of s and STOP, as after a whole input line. */
  ghost predicate Loaded(prog: seq<Cell>, s: Stmt) { CodeAt(prog, 0, StmtCode(s, 0) + [Stop]) }

  /** Whatever the machine ends with, direct evaluation ends with too. */
  lemma MachineIsSound(A: Arith, prog: seq<Cell>, s: Stmt, env: Env, fuel: nat)
    requires Loaded(prog, s) && Run(A, prog, fuel, State(0, [], env)) != Running
    ensures Exec(A, s, env, 0, fuel) != Timeout
    ensures Agrees(Run(A, prog, fuel, State(0, [], env)), Exec(A, s, env, 0, fuel))
  {
    hide CodeAt, Run, Exec, StmtCode, Size;
    BodyOrRunning(A, prog, s, State(0, [], env), fuel);
  }

  /** Whatever direct evaluation ends with, the machine ends with too, given enough fuel. */
  lemma MachineIsComplete(A: Arith, prog: seq<Cell>, s: Stmt, env: Env, fuel: nat)
    requires Loaded(prog, s) && Exec(A, s, env, 0, fuel) != Timeout
    ensures exists g: nat :: Agrees(Run(A, prog, g, State(0, [], env)), Exec(A, s, env, 0, fuel))
  {
    hide CodeAt, Run, Exec, StmtCode, Size;
    var k := BodyRuns(A, prog, s, State(0, [], env), fuel);
    assert Agrees(Run(A, prog, k, State(0, [], env)), Exec(A, s, env, 0, fuel));
  }

  /** The program runs for ever on the machine exactly when direct evaluation does. */
  lemma MachineDivergesAlike(A: Arith, prog: seq<Cell>, s: Stmt, env: Env)
    requires Loaded(prog, s)
    ensures (forall g: nat :: Run(A, prog, g, State(0, [], env)) == Running) <==>
            (forall f: nat :: Exec(A, s, env, 0, f) == Timeout)
  {
    hide Run, Exec, StmtCode, CodeAt;
    if f: nat :| Exec(A, s, env, 0, f) != Timeout {
      MachineIsComplete(A, prog, s, env, f);
      var g: nat :| Agrees(Run(A, prog, g, State(0, [], env)), Exec(A, s, env, 0, f));
      assert Run(A, prog, g, State(0, [], env)) != Running;
    }
    if g: nat :| Run(A, prog, g, State(0, [], env)) != Running {
      MachineIsSound(A, prog, s, env, g);
    }
  }

  /** A parsed program that fits the operand stack meets none of the machine's own errors. */
  lemma OnlyOrdinaryErrors(A: Arith, prog: seq<Cell>, s: Stmt, env: Env, fuel: nat)
    requires Loaded(prog, s) && KnownStmt(env, s)
    ensures var o := Run(A, prog, fuel, State(0, [], env)); o.Crash? ==> Ordinary(o.err)
  {
    hide Run, Exec, StmtCode, CodeAt;
    if Run(A, prog, fuel, State(0, [], env)) != Running {
      MachineIsSound(A, prog, s, env, fuel);
      ExecOrdinary(A, s, env, 0, fuel);
    }
  }
}
