/**
 hoc5 as it runs: the grammar actions that append to prog and patch it, and the machine with its
 stack array, proved against the functions of HocCompiler and HocMachine.
 */
module HocDevice {
  import opened HocLanguage
  import opened HocMachine
  import opened HocOperators
  import opened HocCompiler

  const NPROG: nat := 2000

  /** The code generator: prog and progp of code.c, driven in the order the parser reduces. */
  class CodeGen {
    const prog: array<Cell>
    var progp: nat

    ghost predicate Valid()
      reads this
    {
      prog.Length == NPROG && progp <= NPROG
    }

    ghost function Contents(): seq<Cell>
      requires Valid()
      reads this, prog
    {
      prog[..progp]
    }

    constructor ()
      ensures Valid() && fresh(prog) && Contents() == []
    {
      prog := new Cell[NPROG](_ => Stop);
      progp := 0;
    }

    /** code: install one cell, or report that the program is too big. */
    method Code(c: Cell) returns (ok: bool, at: nat)
      requires Valid()
      modifies this, prog
      ensures Valid() && at == old(progp) && (ok <==> old(progp) < NPROG)
      ensures Contents() == if ok then old(Contents()) + [c] else old(Contents())
    {
      at := progp;
      ok := progp < NPROG;
      if ok {
        prog[progp] := c;
        progp := progp + 1;
      }
    }

    /** Several cells in a row: code2 and code3. */
    method CodeAll(cs: seq<Cell>) returns (ok: bool, at: nat)
      requires Valid()
      modifies this, prog
      ensures Valid() && at == old(progp) && (ok <==> old(progp) + |cs| <= NPROG)
      ensures ok ==> Contents() == old(Contents()) + cs
    {
      at := progp;
      ok := true;
      var k := 0;
      while k < |cs| && ok
        invariant 0 <= k <= |cs| && Valid()
        invariant ok ==> Contents() == old(Contents()) + cs[..k]
        invariant !ok ==> old(progp) + |cs| > NPROG
      {
        var done, _ := Code(cs[k]);
        ok := done;
        k := k + 1;
      }
    }

    /** A forward reference is filled in. */
    method Patch(at: nat, target: nat)
      requires Valid() && at < progp
      modifies prog
      ensures Contents() == old(Contents())[at := Addr(target)]
    {
      prog[at] := Addr(target);
    }

    /** The reductions of an expression; the result is the address its code starts at. */
    method CompileExpr(e: Expr) returns (ok: bool, at: nat)
      requires Valid()
      modifies this, prog
      ensures Valid() && at == old(progp) && (ok <==> old(progp) + |ExprCode(e)| <= NPROG)
      ensures ok ==> Contents() == old(Contents()) + ExprCode(e)
      decreases e
    {
      hide ExprCode, Tail;
      ExprForm(e);
      at := progp;
      ok := true;
      if e.Bin? {
        var left, _ := CompileExpr(e.l);
        if !left { return false, at; }
        var right, _ := CompileExpr(e.r);
        if !right { return false, at; }
      } else if !e.Const? && !e.Var? {
        var done, _ := CompileExpr(e.e);
        if !done { return false, at; }
      }
      var last, _ := CodeAll(Tail(e));
      ok := last;
    }

    /** The reductions of a statement, with back-patching; the result is where its code starts. */
    method CompileStmt(s: Stmt) returns (ok: bool, at: nat)
      requires Valid()
      modifies this, prog
      ensures Valid() && at == old(progp) && (ok <==> old(progp) + Size(s) <= NPROG)
      ensures ok ==> Contents() == old(Contents()) + StmtCode(s, old(progp))
      decreases s, 1
    {
      hide ExprCode, StmtCode, Size;
      at := progp;
      match s {
        case Empty =>
          EmptyForm(at);
          ok := true;
        case Then(s1, s2) => ok := CompileThen(s);
        case While(c, s1) => ok := CompileWhile(s);
        case If(c, s1) => ok := CompileIf(s);
        case IfElse(c, s1, s2) => ok := CompileIfElse(s);
        case _ => ok := CompileDrop(s);
      }
    }

    method CompileDrop(s: Stmt) returns (ok: bool)
      requires Valid() && (s.Eval? || s.Print? || s.Show?)
      modifies this, prog
      ensures Valid() && (ok <==> old(progp) + Size(s) <= NPROG)
      ensures ok ==> Contents() == old(Contents()) + StmtCode(s, old(progp))
    {
      hide ExprCode;
      var done, _ := CompileExpr(s.e);
      if !done { return false; }
      var last, _ := Code(Op(if s.Eval? then XPop else if s.Print? then PrExpr else PrintTop));
      ok := last;
    }

    method CompileThen(s: Stmt) returns (ok: bool)
      requires Valid() && s.Then?
      modifies this, prog
      ensures Valid() && (ok <==> old(progp) + Size(s) <= NPROG)
      ensures ok ==> Contents() == old(Contents()) + StmtCode(s, old(progp))
      decreases s, 0
    {
      hide ExprCode, StmtCode, Size;
      ThenForm(s, progp);
      var first, _ := CompileStmt(s.s);
      if !first { return false; }
      var second, _ := CompileStmt(s.t);
      ok := second;
    }

    /** expr ')' of a condition, with its STOP. */
    method CompileCond(c: Expr) returns (ok: bool)
      requires Valid()
      modifies this, prog
      ensures Valid() && (ok <==> old(progp) + |ExprCode(c)| + 1 <= NPROG)
      ensures ok ==> Contents() == old(Contents()) + (ExprCode(c) + [Stop])
    {
      hide ExprCode;
      var done, _ := CompileExpr(c);
      if !done { return false; }
      var last, _ := Code(Stop);
      ok := last;
    }

    /** stmt end. */
    method CompilePart(s: Stmt) returns (ok: bool, at: nat)
      requires Valid()
      modifies this, prog
      ensures Valid() && at == old(progp) && (ok <==> old(progp) + Size(s) + 1 <= NPROG)
      ensures ok ==> Contents() == old(Contents()) + (StmtCode(s, old(progp)) + [Stop])
      decreases s, 2
    {
      hide StmtCode, Size;
      var done;
      done, at := CompileStmt(s);
      if !done { return false, at; }
      var last, _ := Code(Stop);
      ok := last;
    }

    method CompileWhile(s: Stmt) returns (ok: bool)
      requires Valid() && s.While?
      modifies this, prog
      ensures Valid() && (ok <==> old(progp) + Size(s) <= NPROG)
      ensures ok ==> Contents() == old(Contents()) + StmtCode(s, old(progp))
      decreases s, 0
    {
      hide ExprCode, StmtCode, Size;
      ghost var before := Contents();
      WhileForm(s, progp);
      var ok1, at := CodeAll([Op(WhileCode), Stop, Stop]);
      if !ok1 { return false; }
      var ok2 := CompileCond(s.c);
      if !ok2 { return false; }
      var ok3, body := CompilePart(s.s);
      if !ok3 { return false; }
      ghost var holes := Contents();
      Patch(at + 1, body);
      Patch(at + 2, progp);
      PatchTwo(before, holes, ExprCode(s.c) + [Stop], StmtCode(s.s, body) + [Stop], body, progp);
      ok := true;
    }

    /** IF '(' expr ')': the opcode, three holes and the condition. */
    method CompileIfHead(c: Expr) returns (ok: bool, at: nat)
      requires Valid()
      modifies this, prog
      ensures Valid() && at == old(progp) && (ok <==> old(progp) + 4 + |ExprCode(c)| + 1 <= NPROG)
      ensures ok ==> Contents() == old(Contents()) + [Op(IfCode), Stop, Stop, Stop] + (ExprCode(c) + [Stop])
    {
      hide ExprCode;
      ok, at := CodeAll([Op(IfCode), Stop, Stop, Stop]);
      if ok { ok := CompileCond(c); }
    }

    method CompileIf(s: Stmt) returns (ok: bool)
      requires Valid() && s.If?
      modifies this, prog
      ensures Valid() && (ok <==> old(progp) + Size(s) <= NPROG)
      ensures ok ==> Contents() == old(Contents()) + StmtCode(s, old(progp))
      decreases s, 0
    {
      hide ExprCode, StmtCode, Size;
      ghost var before := Contents();
      IfForm(s, progp);
      var ok1, at := CompileIfHead(s.c);
      if !ok1 { return false; }
      var ok3, thn := CompilePart(s.s);
      if !ok3 { return false; }
      ghost var holes := Contents();
      Patch(at + 1, thn);
      Patch(at + 3, progp);
      PatchIf(before, holes, ExprCode(s.c) + [Stop], StmtCode(s.s, thn) + [Stop], thn, progp);
      ok := true;
    }

    method CompileIfElse(s: Stmt) returns (ok: bool)
      requires Valid() && s.IfElse?
      modifies this, prog
      ensures Valid() && (ok <==> old(progp) + Size(s) <= NPROG)
      ensures ok ==> Contents() == old(Contents()) + StmtCode(s, old(progp))
      decreases s, 0
    {
      hide ExprCode, StmtCode, Size;
      ghost var before := Contents();
      IfElseForm(s, progp);
      var ok1, at := CompileIfHead(s.c);
      if !ok1 { return false; }
      var ok3, thn := CompilePart(s.s);
      if !ok3 { return false; }
      var ok4, els := CompilePart(s.t);
      if !ok4 { return false; }
      ghost var holes := Contents();
      Patch(at + 1, thn);
      Patch(at + 2, els);
      Patch(at + 3, progp);
      PatchIfElse(before, holes, ExprCode(s.c) + [Stop], StmtCode(s.s, thn) + [Stop], StmtCode(s.t, els) + [Stop],
          thn, els, progp);
      ok := true;
    }
  }

  lemma EmptyForm(p: nat)
    ensures Size(Empty) == 0 && StmtCode(Empty, p) == []
  {
  }

  lemma ThenForm(s: Stmt, p: nat)
    requires s.Then?
    ensures Size(s) == Size(s.s) + Size(s.t) && StmtCode(s, p) == StmtCode(s.s, p) + StmtCode(s.t, p + Size(s.s))
    ensures |StmtCode(s.s, p)| == Size(s.s)
  {
  }

  lemma WhileForm(s: Stmt, p: nat)
    requires s.While?
    ensures var body := p + 3 + |ExprCode(s.c)| + 1;
            Size(s) == 3 + |ExprCode(s.c)| + 1 + Size(s.s) + 1
            && StmtCode(s, p) == [Op(WhileCode), Addr(body), Addr(p + Size(s))] + (ExprCode(s.c) + [Stop])
               + (StmtCode(s.s, body) + [Stop])
            && |StmtCode(s.s, body)| == Size(s.s)
  {
  }

  lemma IfForm(s: Stmt, p: nat)
    requires s.If?
    ensures var thn := p + 4 + |ExprCode(s.c)| + 1;
            Size(s) == 4 + |ExprCode(s.c)| + 1 + Size(s.s) + 1 && |StmtCode(s.s, thn)| == Size(s.s)
            && StmtCode(s, p) == [Op(IfCode), Addr(thn), Stop, Addr(p + Size(s))] + (ExprCode(s.c) + [Stop])
               + (StmtCode(s.s, thn) + [Stop])
  {
  }

  lemma IfElseForm(s: Stmt, p: nat)
    requires s.IfElse?
    ensures var thn := p + 4 + |ExprCode(s.c)| + 1;
            var els := thn + Size(s.s) + 1;
            Size(s) == 4 + |ExprCode(s.c)| + 1 + Size(s.s) + 1 + Size(s.t) + 1
            && |StmtCode(s.s, thn)| == Size(s.s) && |StmtCode(s.t, els)| == Size(s.t)
            && StmtCode(s, p) == [Op(IfCode), Addr(thn), Addr(els), Addr(p + Size(s))] + (ExprCode(s.c) + [Stop])
                                 + (StmtCode(s.s, thn) + [Stop]) + (StmtCode(s.t, els) + [Stop])
  {
    hide ExprCode;
    var thn := p + 4 + |ExprCode(s.c)| + 1;
    assert |StmtCode(s.s, thn)| == Size(s.s);
  }

  lemma PatchTwo(before: seq<Cell>, holes: seq<Cell>, a: seq<Cell>, b: seq<Cell>, body: nat, end: nat)
    requires holes == before + [Op(WhileCode), Stop, Stop] + a + b
    ensures holes[|before| + 1 := Addr(body)][|before| + 2 := Addr(end)]
            == before + ([Op(WhileCode), Addr(body), Addr(end)] + a + b)
  {
  }

  lemma PatchIf(before: seq<Cell>, holes: seq<Cell>, a: seq<Cell>, b: seq<Cell>, thn: nat, end: nat)
    requires holes == before + [Op(IfCode), Stop, Stop, Stop] + a + b
    ensures holes[|before| + 1 := Addr(thn)][|before| + 3 := Addr(end)]
            == before + ([Op(IfCode), Addr(thn), Stop, Addr(end)] + a + b)
  {
  }

  lemma PatchIfElse(before: seq<Cell>, holes: seq<Cell>, a: seq<Cell>, b: seq<Cell>, c: seq<Cell>, thn: nat, els: nat,
                    end: nat)
    requires holes == before + [Op(IfCode), Stop, Stop, Stop] + a + b + c
    ensures holes[|before| + 1 := Addr(thn)][|before| + 2 := Addr(els)][|before| + 3 := Addr(end)]
            == before + ([Op(IfCode), Addr(thn), Addr(els), Addr(end)] + a + b + c)
  {
  }

  /** The cells an expression's own reduction appends after those of its operands. */
  function Tail(e: Expr): seq<Cell> {
    match e
    case Const(v) => [Op(ConstPush), NumRef(v)]
    case Var(x) => [Op(VarPush), SymRef(x), Op(EvalVar)]
    case Bin(op, l, r) => [Op(BinI(op))]
    case Assign(x, e1) => [Op(VarPush), SymRef(x), Op(AssignVar)]
    case Builtin(f, e1) => [Op(Bltin), FnRef(f)]
    case Neg(e1) => [Op(NegI)]
    case Not(e1) => [Op(NotI)]
  }

  lemma ExprForm(e: Expr)
    ensures ExprCode(e) == if e.Bin? then ExprCode(e.l) + ExprCode(e.r) + Tail(e)
                           else if e.Const? || e.Var? then Tail(e) else ExprCode(e.e) + Tail(e)
  {
  }

  datatype Status = Halted | Crashed(err: Error) | OutOfFuel

  /** The machine of code.c: a fixed stack array, stackp, pc and the symbol table. */
  class Machine {
    const A: Arith
    const prog: seq<Cell>
    const cells: array<Datum>
    var stackp: nat
    var pc: nat
    var env: Env

    ghost predicate Valid()
      reads this
    {
      cells.Length == NSTACK && stackp <= NSTACK
    }

    ghost function St(): State
      requires Valid()
      reads this, cells
    {
      State(pc, cells[..stackp], env)
    }

    ghost function Shows(status: Status): Outcome
      requires Valid()
      reads this, cells
    {
      match status
      case Halted => Halt(St())
      case Crashed(err) => Crash(err, env)
      case OutOfFuel => Running
    }

    constructor (A: Arith, prog: seq<Cell>, env: Env)
      ensures Valid() && fresh(cells) && St() == State(0, [], env) && this.A == A && this.prog == prog
    {
      this.A := A;
      this.prog := prog;
      this.env := env;
      cells := new Datum[NSTACK](_ => SymD(""));
      stackp := 0;
      pc := 0;
    }

    method PushDatum(d: Datum) returns (status: Status)
      requires Valid()
      modifies this`stackp, cells
      ensures Valid() && Shows(status) == Push(old(St()), d)
    {
      if stackp >= NSTACK { return Crashed(StackOverflow); }
      cells[stackp] := d;
      stackp := stackp + 1;
      status := Halted;
    }

    method PopDatum() returns (status: Status, d: Datum)
      requires Valid()
      modifies this`stackp
      ensures Valid() && (status == if old(stackp) == 0 then Crashed(StackUnderflow) else Halted)
      ensures status == Halted ==> d == Top(old(St())) && St() == Popped(old(St()))
    {
      if stackp <= 0 { return Crashed(StackUnderflow), SymD(""); }
      stackp := stackp - 1;
      d := cells[stackp];
      status := Halted;
    }

    method PushResult(r: EvalResult) returns (status: Status)
      requires Valid()
      modifies this`stackp, this`env, cells
      ensures Valid() && Shows(status) == PushEval(old(St()), r)
    {
      env := r.env;
      if r.Fail? { return Crashed(r.err); }
      status := PushDatum(NumD(r.v));
    }

    method PushNumber(c: Calc) returns (status: Status)
      requires Valid()
      modifies this`stackp, cells
      ensures Valid() && Shows(status) == PushCalc(old(St()), c)
    {
      if c.Bad? { return Crashed(c.err); }
      status := PushDatum(NumD(c.v));
    }

    method DoBinary(op: BinOp) returns (status: Status)
      requires Valid()
      modifies this`stackp, cells
      ensures Valid() && Shows(status) == Binary(A, op, old(St())) && EndsAs(A, op, old(St()), Shows(status))
    {
      BinaryEnds(A, op, St());
      var s2, d2 := PopDatum();
      if s2 != Halted { return s2; }
      if op == Div && d2.NumD? && A.isZero(d2.v) { return Crashed(DivisionByZero); }
      var s1, d1 := PopDatum();
      if s1 != Halted { return s1; }
      if d1.SymD? || d2.SymD? { return Crashed(BadCode); }
      status := PushNumber(Apply(A, op, d1.v, d2.v));
    }

    method DoUnary(f: Num -> Calc) returns (status: Status)
      requires Valid()
      modifies this`stackp, cells
      ensures Valid() && Shows(status) == Unary(old(St()), f)
    {
      var s1, d := PopDatum();
      if s1 != Halted { return s1; }
      if d.SymD? { return Crashed(BadCode); }
      status := PushNumber(f(d.v));
    }

    method DoEval() returns (status: Status)
      requires Valid()
      modifies this`stackp, this`env, cells
      ensures Valid() && Shows(status) == EvalTop(old(St()))
    {
      var s1, d := PopDatum();
      if s1 != Halted { return s1; }
      if d.NumD? { return Crashed(BadCode); }
      status := PushResult(Lookup(d.x, env));
    }

    method DoAssign() returns (status: Status)
      requires Valid()
      modifies this`stackp, this`env, cells
      ensures Valid() && Shows(status) == AssignTop(old(St()))
    {
      var s1, d1 := PopDatum();
      if s1 != Halted { return s1; }
      var s2, d2 := PopDatum();
      if s2 != Halted { return s2; }
      if d1.NumD? || d2.SymD? { return Crashed(BadCode); }
      status := PushResult(Store(d1.x, d2.v, env));
    }

    method DoDrop(show: bool) returns (status: Status)
      requires Valid()
      modifies this`stackp, this`env
      ensures Valid() && Shows(status) == Drop(old(St()), show)
    {
      var s1, d := PopDatum();
      if s1 != Halted { return s1; }
      if show {
        if d.SymD? { return Crashed(BadCode); }
        env := env.(out := env.out + [d.v]);
      }
      status := Halted;
    }

    /** Every instruction but whilecode and ifcode. */
    method DoSimple(i: Instr) returns (status: Status)
      requires Valid() && IsSimple(i)
      modifies this, cells
      ensures Valid() && Shows(status) == Simple(A, prog, i, old(St()))
    {
      hide Apply, Lookup, Store;
      match i {
        case ConstPush =>
          var c := Operand(prog, pc);
          pc := pc + 1;
          if c.NumRef? { status := PushDatum(NumD(c.v)); } else { status := Crashed(BadCode); }
        case VarPush =>
          var c := Operand(prog, pc);
          pc := pc + 1;
          if c.SymRef? { status := PushDatum(SymD(c.x)); } else { status := Crashed(BadCode); }
        case Bltin =>
          var c := Operand(prog, pc);
          pc := pc + 1;
          if c.FnRef? { status := DoUnary(v => OfOption(A.builtin(c.f, v))); } else { status := Crashed(BadCode); }
        case EvalVar => status := DoEval();
        case AssignVar => status := DoAssign();
        case BinI(op) => status := DoBinary(op);
        case NegI => status := DoUnary(v => Result(A.negate(v)));
        case NotI => status := DoUnary(v => Result(A.ofBool(A.isZero(v))));
        case XPop => status := DoDrop(false);
        case PrintTop => status := DoDrop(true);
        case PrExpr => status := DoDrop(true);
      }
    }

    /** execute(p): the dispatch loop, re-entered by whilecode and ifcode. */
    method Execute(p: nat, fuel: nat) returns (status: Status)
      requires Valid()
      modifies this, cells
      ensures Valid() && Shows(status) == Run(A, prog, fuel, old(St()).(pc := p))
      decreases fuel, 0
    {
      hide Simple;
      pc := p;
      ghost var start := St();
      var f := fuel;
      while f > 0
        invariant 0 <= f <= fuel && Valid() && Run(A, prog, fuel, start) == Run(A, prog, f, St())
      {
        var c := Operand(prog, pc);
        if c.Stop? { return Halted; }
        if !c.Op? { return Crashed(BadCode); }
        pc := pc + 1;
        f := f - 1;
        var st: Status;
        match c.i {
          case WhileCode => st := DoWhile(f);
          case IfCode => st := DoIf(f);
          case _ => st := DoSimple(c.i);
        }
        if st != Halted { return st; }
      }
      status := OutOfFuel;
    }

    method DoWhile(fuel: nat) returns (status: Status)
      requires Valid()
      modifies this, cells
      ensures Valid() && Shows(status) == Loop(A, prog, fuel, old(pc), old(St()))
      decreases fuel, 1
    {
      hide Run;
      var savepc := pc;
      ghost var start := St();
      var f := fuel;
      while f > 0
        invariant 0 <= f <= fuel && Valid() && Loop(A, prog, fuel, savepc, start) == Loop(A, prog, f, savepc, St())
      {
        f := f - 1;
        var s1 := Execute(savepc + 2, f);
        if s1 != Halted { return s1; }
        var s2, d := PopDatum();
        if s2 != Halted { return s2; }
        if d.SymD? { return Crashed(BadCode); }
        if A.isZero(d.v) {
          status := JumpTo(savepc + 1);
          return;
        }
        var s3 := JumpTo(savepc);
        if s3 != Halted { return s3; }
        var s4 := Execute(pc, f);
        if s4 != Halted { return s4; }
      }
      status := OutOfFuel;
    }

    method DoIf(fuel: nat) returns (status: Status)
      requires Valid()
      modifies this, cells
      ensures Valid() && Shows(status) == Branch(A, prog, fuel, old(pc), old(St()))
      decreases fuel, 1
    {
      hide Run;
      var savepc := pc;
      if fuel == 0 { return OutOfFuel; }
      var s1 := Execute(savepc + 3, fuel - 1);
      if s1 != Halted { return s1; }
      var s2, d := PopDatum();
      if s2 != Halted { return s2; }
      if d.SymD? { return Crashed(BadCode); }
      var cell := if A.isZero(d.v) then savepc + 1 else savepc;
      if !(A.isZero(d.v) && Operand(prog, cell).Stop?) {
        var s3 := JumpTo(cell);
        if s3 != Halted { return s3; }
        var s4 := Execute(pc, fuel - 1);
        if s4 != Halted { return s4; }
      }
      status := JumpTo(savepc + 2);
    }

    method JumpTo(cell: nat) returns (status: Status)
      requires Valid()
      modifies this`pc
      ensures Valid() && Shows(status) == Jump(prog, cell, old(St()))
    {
      var c := Operand(prog, cell);
      if !c.Addr? { return Crashed(BadCode); }
      pc := c.k;
      status := Halted;
    }
  }
}
