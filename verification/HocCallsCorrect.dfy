/**
 The machine with calls does what direct evaluation says, instruction for instruction.
 */
module HocCallsCorrect {
  import opened HocLanguage
  import HM = HocMachine
  import HC = HocCompiler
  import opened HocFunctions
  import opened HocCalls

  // ---------------------------------------------------------------- arguments on the stack

  function Nums(vs: seq<Num>): (r: seq<HM.Datum>)
    ensures |r| == |vs| && forall i :: 0 <= i < |vs| ==> r[i] == HM.NumD(vs[i])
  {
    seq(|vs|, i requires 0 <= i < |vs| => HM.NumD(vs[i]))
  }

  /** The first cell of the current call's arguments. */
  function ArgBase(st: MState): int { if st.frames == [] then 0 else TopFrame(st).top - TopFrame(st).nargs }

  function Replace(stack: seq<HM.Datum>, b: nat, args: seq<Num>): seq<HM.Datum>
    requires b + |args| <= |stack|
  {
    stack[..b] + Nums(args) + stack[b + |args|..]
  }

  /** The machine state represents the evaluator's: same symbols, and argument k is the k-th cell of
      the argument area of the newest frame. */
  ghost predicate Holds(P: Program, st: MState, s: Site, data: Data) {
    && !st.returning && |st.frames| == s.depth && st.m.env == data.env && s.emitted
    && (s.depth == 0 ==> data.args == [] && s.kind == Main)
    && (s.depth > 0 ==>
          var fr := TopFrame(st);
          fr.f in P && P[fr.f].kind == s.kind && s.kind != Main && fr.nargs == |data.args|
              && fr.nargs <= fr.top <= |st.m.stack|)
    && HasArgs(st, data.args)
  }

  ghost predicate HasArgs(st: MState, args: seq<Num>) {
    0 <= ArgBase(st) && ArgBase(st) + |args| <= |st.m.stack|
        && st.m.stack[ArgBase(st)..ArgBase(st) + |args|] == Nums(args)
  }

  /** st after evaluation reached q with the given data and pushed something. */
  ghost function After(st: MState, d: Data, q: nat, push: seq<HM.Datum>): MState
    requires Fits(st, d)
  {
    st.(m := HM.State(q, Replace(st.m.stack, ArgBase(st), d.args) + push, d.env))
  }

  ghost predicate Fits(st: MState, d: Data) { 0 <= ArgBase(st) && ArgBase(st) + |d.args| <= |st.m.stack| }

  lemma AfterHolds(P: Program, st: MState, s: Site, data: Data, d: Data, q: nat, push: seq<HM.Datum>)
    requires Holds(P, st, s, data) && |d.args| == |data.args|
    ensures Fits(st, d) && Holds(P, After(st, d, q, push), s, d)
            && |After(st, d, q, push).m.stack| == |st.m.stack| + |push|
  {
    var st1 := After(st, d, q, push);
    assert st1.m.stack[ArgBase(st)..ArgBase(st) + |d.args|] == Nums(d.args);
  }

  lemma AfterAfter(st: MState, d1: Data, q1: nat, x: seq<HM.Datum>, d2: Data, q2: nat, y: seq<HM.Datum>)
    requires Fits(st, d1) && |d1.args| == |d2.args|
    ensures Fits(After(st, d1, q1, x), d2) && After(After(st, d1, q1, x), d2, q2, y) == After(st, d2, q2, x + y)
  {
    var b := ArgBase(st);
    var s1 := Replace(st.m.stack, b, d1.args);
    assert Replace(s1 + x, b, d2.args) + y == Replace(st.m.stack, b, d2.args) + (x + y);
  }

  lemma AfterSelf(P: Program, st: MState, s: Site, data: Data)
    requires Holds(P, st, s, data)
    ensures Fits(st, data) && After(st, data, st.m.pc, []) == st
  {
    var b := ArgBase(st);
    assert st.m.stack == st.m.stack[..b] + st.m.stack[b..b + |data.args|] + st.m.stack[b + |data.args|..];
    assert Replace(st.m.stack, b, data.args) + [] == st.m.stack;
  }

  // ---------------------------------------------------------------- dispatch

  function Cont(A: Arith, P: Program, prog: seq<FCell>, r: MResult): MResult {
    if r.Go? then FRun(A, P, prog, r.gas, r.st) else r
  }

  lemma Dispatch(A: Arith, P: Program, prog: seq<FCell>, gas: nat, i: FInstr, st: MState)
    requires Cell(prog, st.m.pc) == Op(i) && !st.returning
    ensures FRun(A, P, prog, gas, st) == if gas == 0 then OutOfGas
            else Cont(A, P, prog, FStep(A, P, prog, gas - 1, i, SetPc(st, st.m.pc + 1)))
  {
    hide FStep, FLoop, FCall, FBranch, FFor, FTest, FEnter, FPost, FSimple, SetPc;
  }

  lemma DispatchSimple(A: Arith, P: Program, prog: seq<FCell>, gas: nat, i: FInstr, st: MState)
    requires Cell(prog, st.m.pc) == Op(i) && !st.returning && !Reenters(i)
    ensures FRun(A, P, prog, gas, st) == if gas == 0 then OutOfGas
            else Cont(A, P, prog, FSimple(A, P, prog, i, SetPc(st, st.m.pc + 1), gas - 1))
  {
    hide FSimple;
    Dispatch(A, P, prog, gas, i, st);
  }

  lemma FSplit(prog: seq<FCell>, p: nat, a: seq<FCell>, b: seq<FCell>)
    requires FCodeAt(prog, p, a + b)
    ensures FCodeAt(prog, p, a) && FCodeAt(prog, p + |a|, b)
  {
    assert prog[p..p + |a|] == (a + b)[..|a|];
    assert prog[p + |a|..p + |a| + |b|] == (a + b)[|a|..];
  }

  lemma FCellAt(prog: seq<FCell>, p: nat, c: seq<FCell>, k: nat)
    requires FCodeAt(prog, p, c) && k < |c|
    ensures Cell(prog, p + k) == c[k]
  {
    assert prog[p..p + |c|][k] == c[k];
  }

  // ---------------------------------------------------------------- what the machine does, by result

  ghost predicate ERel(A: Arith, P: Program, prog: seq<FCell>, gas: nat, st: MState, q: nat, r: EResult) {
    match r
    case Val(v, d, g) => Fits(st, d) && FRun(A, P, prog, gas, st) == FRun(A, P, prog, g, After(st, d, q, [HM.NumD(v)]))
    case EFail(err, env) => FRun(A, P, prog, gas, st) == MFail(err, env)
    case EOut => FRun(A, P, prog, gas, st) == OutOfGas
  }

  ghost predicate ARel(A: Arith, P: Program, prog: seq<FCell>, gas: nat, st: MState, q: nat, r: AResult) {
    match r
    case Vals(vs, d, g) => Fits(st, d) && FRun(A, P, prog, gas, st) == FRun(A, P, prog, g, After(st, d, q, Nums(vs)))
    case AFail(err, env) => FRun(A, P, prog, gas, st) == MFail(err, env)
    case AOut => FRun(A, P, prog, gas, st) == OutOfGas
  }

  /** The state in which the newest call has returned. */
  ghost function Returned(st: MState, v: Option<Num>, env: Env): MState
    requires st.frames != [] && 0 <= ArgBase(st) <= |st.m.stack|
  {
    MState(HM.State(TopFrame(st).retpc, st.m.stack[..ArgBase(st)] + (if v.Some? then [HM.NumD(v.value)] else []), env),
           st.frames[..|st.frames| - 1], true)
  }

  ghost predicate SRel(A: Arith, P: Program, prog: seq<FCell>, gas: nat, st: MState, q: nat, r: SResult) {
    match r
    case Norm(d, g) => Fits(st, d) && FRun(A, P, prog, gas, st) == FRun(A, P, prog, g, After(st, d, q, []))
    case Ret(v, env, g) => st.frames != [] && 0 <= ArgBase(st) <= |st.m.stack|
        && FRun(A, P, prog, gas, st) == Go(Returned(st, v, env), g)
    case SFail(err, env) => FRun(A, P, prog, gas, st) == MFail(err, env)
    case SOut => FRun(A, P, prog, gas, st) == OutOfGas
  }

  // ---------------------------------------------------------------- bodies used as the lexer allows

  /** Functions are called in expressions and procedures as statements; every callee is defined. */
  predicate KindsOk(P: Program, e: FExpr, inside: bool) {
    match e
    case KConst(_) => true
    case KVar(_) => true
    case KArg(_) => inside
    case KAssign(_, e1) => KindsOk(P, e1, inside)
    case KArgAssign(_, e1) => inside && KindsOk(P, e1, inside)
    case KNeg(e1) => KindsOk(P, e1, inside)
    case KBin(_, l, r) => KindsOk(P, l, inside) && KindsOk(P, r, inside)
    case KCall(f, args) => f in P && P[f].kind == Func && ArgKindsOk(P, args, inside)
  }

  predicate ArgKindsOk(P: Program, args: Args, inside: bool) {
    match args
    case NoArgs => true
    case MoreArgs(e, rest) => KindsOk(P, e, inside) && ArgKindsOk(P, rest, inside)
  }

  /** `$` and `return` occur only in definitions (defnonly); `inside` says whether this is one. */
  predicate StmtKindsOk(P: Program, s: FStmt, inside: bool) {
    match s
    case KEval(e) => KindsOk(P, e, inside)
    case KPrint(e) => KindsOk(P, e, inside)
    case KReturn => inside
    case KReturnValue(e) => inside && KindsOk(P, e, inside)
    case KProcedure(f, args) => f in P && P[f].kind == Proc && ArgKindsOk(P, args, inside)
    case KEmpty => true
    case KThen(s1, s2) => StmtKindsOk(P, s1, inside) && StmtKindsOk(P, s2, inside)
    case KWhile(c, s1) => KindsOk(P, c, inside) && StmtKindsOk(P, s1, inside)
    case KIf(c, s1) => KindsOk(P, c, inside) && StmtKindsOk(P, s1, inside)
    case KIfElse(c, s1, s2) => KindsOk(P, c, inside) && StmtKindsOk(P, s1, inside) && StmtKindsOk(P, s2, inside)
    case KFor(i, c, p, s1) =>
        KindsOk(P, i, inside) && KindsOk(P, c, inside) && KindsOk(P, p, inside) && StmtKindsOk(P, s1, inside)
  }

  ghost predicate WellFormed(P: Program, prog: seq<FCell>) {
    Loaded(P, prog) && forall f :: f in P ==> P[f].kind != Main && StmtKindsOk(P, P[f].body, true)
  }

  /** Functions return a value or fail; procedures never return one. */
  lemma {:induction false} ReturnsByKind(A: Arith, P: Program, st: FStmt, s: Site, data: Data, h: nat, gas: nat)
    ensures var r := Perform(A, P, st, s, data, h, gas); r.Ret? ==>
              s.depth > 0 && (s.kind == Func ==> r.v.Some?) && (s.kind == Proc ==> r.v.None?)
    decreases gas, st, 0
  {
    hide Evaluate, EvalArgs, Invoke, Turns;
    match st
    case KThen(s1, s2) =>
      ReturnsByKind(A, P, s1, s, data, h, gas);
      var o := Perform(A, P, s1, s, data, h, gas);
      if o.Norm? { ReturnsByKind(A, P, s2, s, o.data, h, o.gas); }
    case KIf(c, s1) =>
      if gas > 0 {
        var o := Evaluate(A, P, c, s, data, h, gas - 1);
        if o.Val? { ReturnsByKind(A, P, s1, s, o.data, h, o.gas); }
      }
    case KIfElse(c, s1, s2) =>
      if gas > 0 {
        var o := Evaluate(A, P, c, s, data, h, gas - 1);
        if o.Val? { ReturnsByKind(A, P, if A.isZero(o.v) then s2 else s1, s, o.data, h, o.gas); }
      }
    case KWhile(c, s1) =>
      if gas > 0 { TurnsByKind(A, P, c, None, s1, s, data, h, gas - 1); }
    case KFor(i, c, p, s1) =>
      if gas > 0 {
        var o := Evaluate(A, P, i, s, data, h, gas - 1);
        if o.Val? { TurnsByKind(A, P, c, Some(p), s1, s, o.data, h, o.gas); }
      }
    case _ =>
  }

  lemma {:induction false} TurnsByKind(A: Arith, P: Program, c: FExpr, post: Option<FExpr>, body: FStmt, s: Site,
                                       data: Data, h: nat, gas: nat)
    ensures var r := Turns(A, P, c, post, body, s, data, h, gas); r.Ret? ==>
              s.depth > 0 && (s.kind == Func ==> r.v.Some?) && (s.kind == Proc ==> r.v.None?)
    decreases gas, c, 1
  {
    hide Evaluate, Perform, PostOf;
    var o := Evaluate(A, P, c, s, data, h, gas);
    if o.Val? && !A.isZero(o.v) {
      ReturnsByKind(A, P, body, s, o.data, h, o.gas);
      var b := PartOf(A, P, body, s, o.data, h, o.gas);
      if b.Norm? {
        var e := PostOf(A, P, post, s, b.data, h, b.gas);
        if e.Norm? { TurnsByKind(A, P, c, post, body, s, e.data, h, e.gas); }
      }
    }
  }

  // ---------------------------------------------------------------- a value needs room

  lemma {:induction false} RoomE(A: Arith, P: Program, e: FExpr, s: Site, data: Data, h: nat, gas: nat)
    ensures Evaluate(A, P, e, s, data, h, gas).Val? ==> h < NSTACK
    decreases gas, e, 0
  {
    hide EvalArgs, Perform, Invoke, Lookup, Store, Apply;
    match e
    case KConst(_) =>
    case KVar(_) =>
    case KArg(_) =>
    case KAssign(_, e1) => RoomE(A, P, e1, s, data, h, gas);
    case KArgAssign(_, e1) => RoomE(A, P, e1, s, data, h, gas);
    case KNeg(e1) => RoomE(A, P, e1, s, data, h, gas);
    case KBin(_, l, _) => RoomE(A, P, l, s, data, h, gas);
    case KCall(f, args) => RoomI(A, P, f, args, s, data, h, gas);
  }

  lemma {:induction false} RoomI(A: Arith, P: Program, f: Name, args: Args, s: Site, data: Data, h: nat, gas: nat)
    ensures var r := Invoke(A, P, f, args, s, data, h, gas); r.Ret? && r.v.Some? ==> h < NSTACK
    decreases gas, args, 1
  {
    hide EvalArgs, Perform, Leave;
    var o := EvalArgs(A, P, args, s, data, h, gas);
    if o.Vals? && o.gas > 0 && f in P {
      RoomS(A, P, P[f].body, Site(P[f].kind, s.depth + 1, s.emitted), Data(o.data.env, o.vs), h + |o.vs|, o.gas - 1);
    }
  }

  lemma {:induction false} RoomA(A: Arith, P: Program, args: Args, s: Site, data: Data, h: nat, gas: nat)
    requires h <= NSTACK
    ensures EvalArgs(A, P, args, s, data, h, gas).Vals? ==> h + Count(args) <= NSTACK
    decreases args
  {
    hide Evaluate;
    match args
    case NoArgs =>
    case MoreArgs(e, rest) =>
      RoomE(A, P, e, s, data, h, gas);
      var o := Evaluate(A, P, e, s, data, h, gas);
      if o.Val? { RoomA(A, P, rest, s, o.data, h + 1, o.gas); }
  }

  lemma {:induction false} RoomS(A: Arith, P: Program, st: FStmt, s: Site, data: Data, h: nat, gas: nat)
    ensures var r := Perform(A, P, st, s, data, h, gas); r.Ret? && r.v.Some? ==> h < NSTACK
    decreases gas, st, 0
  {
    hide Evaluate, EvalArgs, Invoke, Turns;
    match st
    case KReturnValue(e) => RoomE(A, P, e, s, data, h, gas);
    case KThen(s1, s2) =>
      RoomS(A, P, s1, s, data, h, gas);
      var o := Perform(A, P, s1, s, data, h, gas);
      if o.Norm? { RoomS(A, P, s2, s, o.data, h, o.gas); }
    case KIf(c, s1) => if gas > 0 { RoomE(A, P, c, s, data, h, gas - 1); }
    case KIfElse(c, s1, s2) => if gas > 0 { RoomE(A, P, c, s, data, h, gas - 1); }
    case KWhile(c, s1) => if gas > 0 { RoomT(A, P, c, None, s1, s, data, h, gas - 1); }
    case KFor(i, c, p, s1) => if gas > 0 { RoomE(A, P, i, s, data, h, gas - 1); }
    case _ =>
  }

  lemma RoomT(A: Arith, P: Program, c: FExpr, post: Option<FExpr>, body: FStmt, s: Site, data: Data, h: nat, gas: nat)
    ensures Turns(A, P, c, post, body, s, data, h, gas).Ret? ==> h < NSTACK
    decreases gas, c, 1
  {
    hide Evaluate, Perform;
    RoomE(A, P, c, s, data, h, gas);
  }

  // ---------------------------------------------------------------- effects on the operand stack

  lemma AssignM(x: Name, m: HM.State, v: Num)
    ensures HM.AssignTop(m.(stack := m.stack + [HM.NumD(v)] + [HM.SymD(x)])) == HM.PushEval(m, Store(x, v, m.env))
  {
    hide Store;
    HC.PushPop(m.(stack := m.stack + [HM.NumD(v)]), HM.SymD(x));
    HC.PushPop(m, HM.NumD(v));
  }

  lemma EvalM(x: Name, m: HM.State)
    ensures HM.EvalTop(m.(stack := m.stack + [HM.SymD(x)])) == HM.PushEval(m, Lookup(x, m.env))
    ensures Lookup(x, m.env).env == m.env
  {
    HC.PushPop(m, HM.SymD(x));
  }

  lemma NegM(A: Arith, m: HM.State, v: Num)
    ensures HM.Unary(m.(stack := m.stack + [HM.NumD(v)]), v => Result(A.negate(v)))
            == HM.PushCalc(m, Result(A.negate(v)))
  {
    HC.PushPop(m, HM.NumD(v));
  }

  /** The stack under what was pushed. */
  ghost function Below(st: MState, d: Data, q: nat): HM.State
    requires Fits(st, d)
  {
    After(st, d, q, []).m
  }

  lemma BelowPush(st: MState, d: Data, q: nat, push: seq<HM.Datum>)
    requires Fits(st, d)
    ensures After(st, d, q, push) == st.(m := Below(st, d, q).(stack := Below(st, d, q).stack + push))
    ensures |Below(st, d, q).stack| == |st.m.stack| && Below(st, d, q).pc == q && Below(st, d, q).env == d.env
  {
  }

  // ---------------------------------------------------------------- expressions

  ghost predicate EPre(P: Program, prog: seq<FCell>, e: FExpr, st: MState, s: Site, data: Data) {
    && WellFormed(P, prog) && KindsOk(P, e, s.depth > 0) && FCodeAt(prog, st.m.pc, FExprCode(e))
    && Holds(P, st, s, data) && |st.m.stack| <= NSTACK
  }

  ghost predicate ESim(A: Arith, P: Program, prog: seq<FCell>, e: FExpr, st: MState, s: Site, data: Data, gas: nat) {
    ERel(A, P, prog, gas, st, st.m.pc + |FExprCode(e)|, Evaluate(A, P, e, s, data, |st.m.stack|, gas))
  }

  lemma {:induction false} ExprSim(A: Arith, P: Program, prog: seq<FCell>, e: FExpr, st: MState, s: Site, data: Data,
                                   gas: nat)
    requires EPre(P, prog, e, st, s, data)
    ensures ESim(A, P, prog, e, st, s, data, gas)
    decreases gas, e, 1
  {
    hide *;
    match e
    case KConst(_) => ConstSim(A, P, prog, e, st, s, data, gas);
    case KVar(_) => VarSim(A, P, prog, e, st, s, data, gas);
    case KArg(_) => ArgSim(A, P, prog, e, st, s, data, gas);
    case KAssign(_, _) => AssignSim(A, P, prog, e, st, s, data, gas);
    case KArgAssign(_, _) => ArgAssignSim(A, P, prog, e, st, s, data, gas);
    case KNeg(_) => NegSim(A, P, prog, e, st, s, data, gas);
    case KBin(_, _, _) => BinSim(A, P, prog, e, st, s, data, gas);
    case KCall(f, args) => CallSim(A, P, prog, e, st, s, data, gas);
  }

  lemma ConstSim(A: Arith, P: Program, prog: seq<FCell>, e: FExpr, st: MState, s: Site, data: Data, gas: nat)
    requires e.KConst? && EPre(P, prog, e, st, s, data)
    ensures ESim(A, P, prog, e, st, s, data, gas)
  {
    hide FRun, WellFormed, FCodeAt;
    var p, code := st.m.pc, FExprCode(e);
    FCellAt(prog, p, code, 0); FCellAt(prog, p, code, 1);
    DispatchSimple(A, P, prog, gas, ConstPush, st);
    PushesAfter(P, st, s, data, p + 2, HM.NumD(e.v));
  }

  /** Pushing onto st moves it to the state After describes. */
  lemma PushesAfter(P: Program, st: MState, s: Site, data: Data, q: nat, d: HM.Datum)
    requires Holds(P, st, s, data)
    ensures Fits(st, data) && st.(m := HM.State(q, st.m.stack + [d], data.env)) == After(st, data, q, [d])
  {
    AfterSelf(P, st, s, data);
    assert Replace(st.m.stack, ArgBase(st), data.args) == st.m.stack;
  }

  lemma VarSim(A: Arith, P: Program, prog: seq<FCell>, e: FExpr, st: MState, s: Site, data: Data, gas: nat)
    requires e.KVar? && EPre(P, prog, e, st, s, data)
    ensures ESim(A, P, prog, e, st, s, data, gas)
  {
    hide FRun, WellFormed, FCodeAt, Lookup, Holds, After, Fits;
    var p, code := st.m.pc, FExprCode(e);
    FramesAre(P, st, s, data);
    FCellAt(prog, p, code, 0); FCellAt(prog, p, code, 1); FCellAt(prog, p, code, 2);
    DispatchSimple(A, P, prog, gas, VarPush, st);
    if gas > 0 && |st.m.stack| < NSTACK { VarLast(A, P, prog, e.x, st, s, data, p, gas - 1); }
  }

  /** eval, with the variable's symbol on top. */
  lemma VarLast(A: Arith, P: Program, prog: seq<FCell>, x: Name, st: MState, s: Site, data: Data, p: nat, gas: nat)
    requires Holds(P, st, s, data) && |st.m.stack| < NSTACK && Cell(prog, p + 2) == Op(EvalVar) && !st.returning
    ensures ERelFrom(A, P, prog, gas, st.(m := HM.State(p + 2, st.m.stack + [HM.SymD(x)], st.m.env)), st, p + 3,
              if gas == 0 then EOut else OfEval(Lookup(x, data.env), data, gas - 1))
  {
    hide FRun, Lookup, Holds, After, Fits;
    FramesAre(P, st, s, data);
    DispatchSimple(A, P, prog, gas, EvalVar, st.(m := HM.State(p + 2, st.m.stack + [HM.SymD(x)], st.m.env)));
    EvalM(x, st.m.(pc := p + 3));
    LookupKeeps(x, data.env);
    var o := Lookup(x, data.env);
    if o.Ok? { PushesAfter(P, st, s, data, p + 3, HM.NumD(o.v)); }
  }

  lemma LookupKeeps(x: Name, env: Env)
    ensures Lookup(x, env).env == env
  {
  }

  lemma ArgSim(A: Arith, P: Program, prog: seq<FCell>, e: FExpr, st: MState, s: Site, data: Data, gas: nat)
    requires e.KArg? && EPre(P, prog, e, st, s, data)
    ensures ESim(A, P, prog, e, st, s, data, gas)
  {
    hide FRun, WellFormed, FCodeAt, Replace;
    var p, code := st.m.pc, FExprCode(e);
    FCellAt(prog, p, code, 0); FCellAt(prog, p, code, 1);
    DispatchSimple(A, P, prog, gas, ArgI, st);
    if 1 <= e.k <= |data.args| {
      ArgIs(P, st, s, data, e.k);
      PushesAfter(P, st, s, data, p + 2, HM.NumD(data.args[e.k - 1]));
    }
  }

  /** While a body runs, argument k denotes the k-th pushed value. */
  lemma ArgIs(P: Program, st: MState, s: Site, data: Data, k: nat)
    requires Holds(P, st, s, data) && s.depth > 0 && 1 <= k <= |data.args|
    ensures 0 <= ArgIndex(st, k) < |st.m.stack| && st.m.stack[ArgIndex(st, k)] == HM.NumD(data.args[k - 1])
    ensures TopFrame(st).nargs == |data.args|
  {
    var b := ArgBase(st);
    assert st.m.stack[b..b + |data.args|][k - 1] == st.m.stack[b + (k - 1)];
  }

  lemma {:induction false} NegSim(A: Arith, P: Program, prog: seq<FCell>, e: FExpr, st: MState, s: Site, data: Data,
                                  gas: nat)
    requires e.KNeg? && EPre(P, prog, e, st, s, data)
    ensures ESim(A, P, prog, e, st, s, data, gas)
    decreases gas, e, 0
  {
    hide FRun, WellFormed, FCodeAt, Holds, After, Fits;
    var p, q := st.m.pc, st.m.pc + |FExprCode(e.e)|;
    FSplit(prog, p, FExprCode(e.e), [Op(NegI)]);
    FCellAt(prog, q, [Op(NegI)], 0);
    ExprSim(A, P, prog, e.e, st, s, data, gas);
    var o := Evaluate(A, P, e.e, s, data, |st.m.stack|, gas);
    if o.Val? {
      RoomE(A, P, e.e, s, data, |st.m.stack|, gas);
      NegLast(A, P, prog, st, s, data, o.data, q, o.v, o.gas);
    }
  }

  lemma NegLast(A: Arith, P: Program, prog: seq<FCell>, st: MState, s: Site, data: Data, d: Data, q: nat, v: Num,
                gas: nat)
    requires Holds(P, st, s, data) && Fits(st, d) && |st.m.stack| < NSTACK && Cell(prog, q) == Op(NegI)
    ensures FRun(A, P, prog, gas, After(st, d, q, [HM.NumD(v)])) ==
            if gas == 0 then OutOfGas else FRun(A, P, prog, gas - 1, After(st, d, q + 1, [HM.NumD(A.negate(v))]))
  {
    hide FRun, Holds, After, Fits, Below, HM.Unary;
    FramesAre(P, st, s, data);
    BelowPush(st, d, q, [HM.NumD(v)]);
    DispatchSimple(A, P, prog, gas, NegI, After(st, d, q, [HM.NumD(v)]));
    BelowMoves(st, d, q, q + 1);
    BelowPush(st, d, q + 1, [HM.NumD(A.negate(v))]);
    NegM(A, Below(st, d, q + 1), v);
  }

  lemma {:induction false} AssignSim(A: Arith, P: Program, prog: seq<FCell>, e: FExpr, st: MState, s: Site,
                                     data: Data, gas: nat)
    requires e.KAssign? && EPre(P, prog, e, st, s, data)
    ensures ESim(A, P, prog, e, st, s, data, gas)
    decreases gas, e, 0
  {
    hide FRun, WellFormed, FCodeAt, Replace, Store;
    var tail := [Op(VarPush), SymRef(e.x), Op(AssignVar)];
    var p, q := st.m.pc, st.m.pc + |FExprCode(e.e)|;
    FSplit(prog, p, FExprCode(e.e), tail);
    FCellAt(prog, q, tail, 0); FCellAt(prog, q, tail, 1); FCellAt(prog, q, tail, 2);
    ExprSim(A, P, prog, e.e, st, s, data, gas);
    var o := Evaluate(A, P, e.e, s, data, |st.m.stack|, gas);
    if o.Val? {
      RoomE(A, P, e.e, s, data, |st.m.stack|, gas);
      AfterHolds(P, st, s, data, o.data, q, [HM.NumD(o.v)]);
      AssignLast(A, P, prog, e.x, st, s, data, o.data, q, o.v, o.gas);
    }
  }

  /** varpush and assign, on the value on top of the stack. */
  lemma AssignLast(A: Arith, P: Program, prog: seq<FCell>, x: Name, st: MState, s: Site, data: Data, d: Data, q: nat,
                   v: Num, gas: nat)
    requires Holds(P, st, s, data) && |d.args| == |data.args| && |st.m.stack| < NSTACK
    requires Cell(prog, q) == Op(VarPush) && Cell(prog, q + 1) == SymRef(x) && Cell(prog, q + 2) == Op(AssignVar)
    ensures Fits(st, d)
    ensures ERelFrom(A, P, prog, gas, After(st, d, q, [HM.NumD(v)]), st, q + 3,
              if gas == 0 then EOut else if |st.m.stack| + 1 >= NSTACK then EFail(Base(StackOverflow), d.env)
              else if gas == 1 then EOut else OfEval(Store(x, v, d.env), d, gas - 2))
  {
    hide FRun, Store, Replace, After, Below, HM.AssignTop;
    AfterHolds(P, st, s, data, d, q, [HM.NumD(v)]);
    var st1 := After(st, d, q, [HM.NumD(v)]);
    BelowPush(st, d, q, [HM.NumD(v)]);
    DispatchSimple(A, P, prog, gas, VarPush, st1);
    if gas > 0 && |st1.m.stack| < NSTACK {
      var m := Below(st, d, q + 3);
      BelowPush(st, d, q + 3, [HM.NumD(v)]);
      BelowMoves(st, d, q, q + 3);
      DispatchSimple(A, P, prog, gas - 1, AssignVar,
          st1.(m := HM.State(q + 2, m.stack + [HM.NumD(v)] + [HM.SymD(x)], d.env)));
      AssignM(x, m, v);
      StoreValue(x, v, d.env);
      AfterEnv(st, d, q + 3, Store(x, v, d.env).env, [HM.NumD(v)]);
    }
  }

  lemma BelowMoves(st: MState, d: Data, q: nat, q': nat)
    requires Fits(st, d)
    ensures Below(st, d, q').stack == Below(st, d, q).stack && Below(st, d, q') == Below(st, d, q).(pc := q')
            && Below(st, d, q).env == d.env
  {
  }

  lemma AfterEnv(st: MState, d: Data, q: nat, env: Env, push: seq<HM.Datum>)
    requires Fits(st, d)
    ensures var d' := d.(env := env);
            Fits(st, d') && After(st, d', q, push) == st.(m :=
                Below(st, d, q).(stack := Below(st, d, q).stack + push, env := env))
  {
  }

  lemma StoreValue(x: Name, v: Num, env: Env)
    ensures Store(x, v, env).Ok? ==> Store(x, v, env).v == v
  {
  }

  lemma {:induction false} ArgAssignSim(A: Arith, P: Program, prog: seq<FCell>, e: FExpr, st: MState, s: Site,
                                        data: Data, gas: nat)
    requires e.KArgAssign? && EPre(P, prog, e, st, s, data)
    ensures ESim(A, P, prog, e, st, s, data, gas)
    decreases gas, e, 0
  {
    hide FRun, WellFormed, FCodeAt, Replace, HasArgs;
    var tail := [Op(ArgAssignI), Int(e.k)];
    var p, q := st.m.pc, st.m.pc + |FExprCode(e.e)|;
    FSplit(prog, p, FExprCode(e.e), tail);
    FCellAt(prog, q, tail, 0); FCellAt(prog, q, tail, 1);
    ExprSim(A, P, prog, e.e, st, s, data, gas);
    var o := Evaluate(A, P, e.e, s, data, |st.m.stack|, gas);
    if o.Val? {
      AfterHolds(P, st, s, data, o.data, q, [HM.NumD(o.v)]);
      var st1 := After(st, o.data, q, [HM.NumD(o.v)]);
      DispatchSimple(A, P, prog, o.gas, ArgAssignI, st1);
      if 1 <= e.k <= |o.data.args| { ArgStored(P, st, s, data, o.data, q, e.k, o.v); }
    }
  }

  /** Storing through getarg changes argument k and nothing else on the stack. */
  lemma ArgStored(P: Program, st: MState, s: Site, data: Data, d: Data, q: nat, k: nat, v: Num)
    requires Holds(P, st, s, data) && s.depth > 0 && |d.args| == |data.args| && 1 <= k <= |d.args|
    ensures Fits(st, d)
    ensures var st1 := After(st, d, q, [HM.NumD(v)]);
            var at := ArgIndex(st1, k);
            st1.m.stack != [] && HM.Top(st1.m) == HM.NumD(v) && 0 <= at < |st1.m.stack|
            && TopFrame(st1).nargs == |d.args|
            && st1.m.stack[at := HM.NumD(v)] == Replace(st.m.stack, ArgBase(st), d.args[k - 1 := v]) + [HM.NumD(v)]
  {
    AfterHolds(P, st, s, data, d, q, [HM.NumD(v)]);
  }

  lemma {:induction false} BinSim(A: Arith, P: Program, prog: seq<FCell>, e: FExpr, st: MState, s: Site, data: Data,
                                  gas: nat)
    requires e.KBin? && EPre(P, prog, e, st, s, data)
    ensures ESim(A, P, prog, e, st, s, data, gas)
    decreases gas, e, 0
  {
    hide FRun, WellFormed, FCodeAt, Holds, Replace, Apply, After, Fits;
    var p, n := st.m.pc, |st.m.stack|;
    var q1, q2 := p + |FExprCode(e.l)|, p + |FExprCode(e.l)| + |FExprCode(e.r)|;
    FSplit(prog, p, FExprCode(e.l) + FExprCode(e.r), [Op(BinI(e.op))]);
    FSplit(prog, p, FExprCode(e.l), FExprCode(e.r));
    FCellAt(prog, q2, [Op(BinI(e.op))], 0);
    ExprSim(A, P, prog, e.l, st, s, data, gas);
    var o := Evaluate(A, P, e.l, s, data, n, gas);
    if o.Val? {
      RoomE(A, P, e.l, s, data, n, gas);
      AfterHolds(P, st, s, data, o.data, q1, [HM.NumD(o.v)]);
      AfterPc(st, o.data, q1, [HM.NumD(o.v)]);
      var st1 := After(st, o.data, q1, [HM.NumD(o.v)]);
      ExprSim(A, P, prog, e.r, st1, s, o.data, o.gas);
      var o2 := Evaluate(A, P, e.r, s, o.data, n + 1, o.gas);
      if o2.Val? {
        AfterAfter(st, o.data, q1, [HM.NumD(o.v)], o2.data, q2, [HM.NumD(o2.v)]);
        BinLast(A, P, prog, e.op, st, s, data, o2.data, q2, o.v, o2.v, o2.gas);
      }
    }
  }

  /** The operator itself, on the two operands on top of the stack. */
  lemma BinLast(A: Arith, P: Program, prog: seq<FCell>, op: BinOp, st: MState, s: Site, data: Data, d: Data, q: nat,
                x: Num, y: Num, gas: nat)
    requires Holds(P, st, s, data) && |d.args| == |data.args| && |st.m.stack| < NSTACK && Cell(prog, q) == Op(BinI(op))
    ensures Fits(st, d)
    ensures ERelFrom(A, P, prog, gas, After(st, d, q, [HM.NumD(x)] + [HM.NumD(y)]), st, q + 1,
              if gas == 0 then EOut else OfEval(OfCalc(Apply(A, op, x, y), d.env), d, gas - 1))
  {
    hide FRun, Replace, Apply, Holds, HM.Binary;
    var two := [HM.NumD(x)] + [HM.NumD(y)];
    AfterHolds(P, st, s, data, d, q, two);
    AfterHolds(P, st, s, data, d, q, []);
    FramesAre(P, After(st, d, q, two), s, d);
    var m := HM.State(q + 1, Replace(st.m.stack, ArgBase(st), d.args), d.env);
    assert m.stack + two == m.stack + [HM.NumD(x)] + [HM.NumD(y)];
    DispatchSimple(A, P, prog, gas, BinI(op), After(st, d, q, two));
    BinM(A, op, m, x, y);
  }

  lemma BinM(A: Arith, op: BinOp, m: HM.State, x: Num, y: Num)
    ensures HM.Binary(A, op, m.(stack := m.stack + [HM.NumD(x)] + [HM.NumD(y)])) == HM.PushCalc(m, Apply(A, op, x, y))
  {
    HC.PushPop(m.(stack := m.stack + [HM.NumD(x)]), HM.NumD(y));
    HC.PushPop(m, HM.NumD(x));
  }

  /** ERel for a run that starts in `from`, with results placed relative to st. */
  ghost predicate ERelFrom(A: Arith, P: Program, prog: seq<FCell>, gas: nat, from: MState, st: MState, q: nat,
                           r: EResult) {
    match r
    case Val(v, d, g) => Fits(st, d) && FRun(A, P, prog, gas, from)
        == FRun(A, P, prog, g, After(st, d, q, [HM.NumD(v)]))
    case EFail(err, env) => FRun(A, P, prog, gas, from) == MFail(err, env)
    case EOut => FRun(A, P, prog, gas, from) == OutOfGas
  }

  // ---------------------------------------------------------------- calls

  lemma {:induction false} ArgsSim(A: Arith, P: Program, prog: seq<FCell>, args: Args, st: MState, s: Site,
                                   data: Data, gas: nat)
    requires WellFormed(P, prog) && ArgKindsOk(P, args, s.depth > 0) && FCodeAt(prog, st.m.pc, ArgsCode(args))
    requires Holds(P, st, s, data) && |st.m.stack| <= NSTACK
    ensures ARel(A, P, prog, gas, st, st.m.pc + |ArgsCode(args)|, EvalArgs(A, P, args, s, data, |st.m.stack|, gas))
    decreases gas, args, 0
  {
    hide FRun, WellFormed, FCodeAt, Holds, Evaluate, FExprCode, KindsOk, After, Fits;
    match args
    case NoArgs => AfterSelf(P, st, s, data);
    case MoreArgs(e, rest) =>
      var p, q, n := st.m.pc, st.m.pc + |FExprCode(e)|, |st.m.stack|;
      FSplit(prog, p, FExprCode(e), ArgsCode(rest));
      ExprSim(A, P, prog, e, st, s, data, gas);
      var o := Evaluate(A, P, e, s, data, n, gas);
      if o.Val? {
        RoomE(A, P, e, s, data, n, gas);
        AfterHolds(P, st, s, data, o.data, q, [HM.NumD(o.v)]);
        var st1 := After(st, o.data, q, [HM.NumD(o.v)]);
        AfterPc(st, o.data, q, [HM.NumD(o.v)]);
        ArgsSim(A, P, prog, rest, st1, s, o.data, o.gas);
        var o2 := EvalArgs(A, P, rest, s, o.data, n + 1, o.gas);
        if o2.Vals? {
          AfterAfter(st, o.data, q, [HM.NumD(o.v)], o2.data, q + |ArgsCode(rest)|, Nums(o2.vs));
          assert [HM.NumD(o.v)] + Nums(o2.vs) == Nums([o.v] + o2.vs);
          FitsToo(st, o.data, o2.data);
        }
      }
  }

  lemma AfterPc(st: MState, d: Data, q: nat, push: seq<HM.Datum>)
    requires Fits(st, d)
    ensures After(st, d, q, push).m.pc == q && After(st, d, q, push).frames == st.frames
            && After(st, d, q, push).returning == st.returning
    ensures After(st, d, q, push).m.env == d.env && |After(st, d, q, push).m.stack| == |st.m.stack| + |push|
  {
  }

  lemma FitsToo(st: MState, d: Data, d': Data)
    requires Fits(st, d) && |d'.args| == |d.args|
    ensures Fits(st, d')
  {
  }

  ghost predicate IPre(P: Program, prog: seq<FCell>, f: Name, args: Args, st: MState, s: Site, data: Data) {
    && WellFormed(P, prog) && f in P && ArgKindsOk(P, args, s.depth > 0)
    && FCodeAt(prog, st.m.pc, ArgsCode(args) + [Op(CallI), SymRef(f), Int(Count(args))])
    && Holds(P, st, s, data) && |st.m.stack| <= NSTACK
  }

  function Pushed(v: Option<Num>): seq<HM.Datum> { if v.Some? then [HM.NumD(v.value)] else [] }

  /** A call comes back just past its operands with the frame pointer and everything below the
      arguments as before, the flag clear, and the arguments replaced by the result. */
  ghost predicate IRel(A: Arith, P: Program, prog: seq<FCell>, gas: nat, st: MState, q: nat, d1: Data, r: SResult) {
    match r
    case Ret(v, env, g) => Fits(st, d1) && FRun(A, P, prog, gas, st)
        == FRun(A, P, prog, g, After(st, d1.(env := env), q, Pushed(v)))
    case SFail(err, env) => FRun(A, P, prog, gas, st) == MFail(err, env)
    case SOut => FRun(A, P, prog, gas, st) == OutOfGas
    case Norm(_, _) => true
  }

  /** The data after the arguments were evaluated; any data when they were not. */
  ghost function DataOf(r: AResult, data: Data): Data { if r.Vals? then r.data else data }

  lemma {:induction false} InvokeSim(A: Arith, P: Program, prog: seq<FCell>, f: Name, args: Args, st: MState, s: Site,
                                     data: Data, gas: nat)
    requires IPre(P, prog, f, args, st, s, data)
    ensures IRel(A, P, prog, gas, st, st.m.pc + |ArgsCode(args)| + 3,
            DataOf(EvalArgs(A, P, args, s, data, |st.m.stack|, gas), data),
              Invoke(A, P, f, args, s, data, |st.m.stack|, gas))
    decreases gas, args, 1
  {
    hide FRun, WellFormed, FCodeAt, Holds, EvalArgs, ArgsCode, ArgKindsOk, After, Fits, Perform, Leave, Nums, Callee,
        Body;
    var tail := [Op(CallI), SymRef(f), Int(Count(args))];
    var q := st.m.pc + |ArgsCode(args)|;
    FSplit(prog, st.m.pc, ArgsCode(args), tail);
    FCellAt(prog, q, tail, 0); FCellAt(prog, q, tail, 1); FCellAt(prog, q, tail, 2);
    ArgsSim(A, P, prog, args, st, s, data, gas);
    var o := EvalArgs(A, P, args, s, data, |st.m.stack|, gas);
    if o.Vals? {
      AfterHolds(P, st, s, data, o.data, q, Nums(o.vs));
      var st1 := After(st, o.data, q, Nums(o.vs));
      AfterPc(st, o.data, q, Nums(o.vs));
      FramesAre(P, st, s, data);
      Dispatch(A, P, prog, o.gas, CallI, st1);
      if o.gas > 0 && s.depth < NFRAME - 1 {
        var inner := Callee(P, f, st1, |o.vs|);
        var d := Data(o.data.env, o.vs);
        NotMain(P, prog, f);
        RoomA(A, P, args, s, data, |st.m.stack|, gas);
        EntersBody(P, st, s, data, o.data, q, f, o.vs);
        BodySim(A, P, prog, f, inner, Site(P[f].kind, s.depth + 1, s.emitted), d, o.gas - 1);
        CallLands(A, P, prog, st, o.data, q, f, o.vs, o.gas - 1,
            Body(A, P, f, d, s.depth + 1, |st.m.stack| + |o.vs|, o.gas - 1));
        BodyIsInvoke(A, P, f, args, s, data, |st.m.stack|, gas);
      } else if o.gas > 0 {
        CallRefused(A, P, prog, f, st1, o.gas - 1);
      }
    }
  }

  lemma NotMain(P: Program, prog: seq<FCell>, f: Name)
    requires WellFormed(P, prog) && f in P
    ensures P[f].kind != Main
  {
  }

  lemma FramesAre(P: Program, st: MState, s: Site, data: Data)
    requires Holds(P, st, s, data)
    ensures |st.frames| == s.depth && !st.returning && st.m.env == data.env && s.emitted
  {
  }

  lemma CallRefused(A: Arith, P: Program, prog: seq<FCell>, f: Name, st1: MState, gas: nat)
    requires f in P && |st1.frames| >= NFRAME - 1 && Cell(prog, st1.m.pc + 1) == SymRef(f)
             && Cell(prog, st1.m.pc + 2).Int?
    ensures FStep(A, P, prog, gas, CallI, SetPc(st1, st1.m.pc + 1)) == MFail(CallTooDeep, st1.m.env)
  {
  }

  /** The state in which the body of f starts. */
  ghost function Callee(P: Program, f: Name, st: MState, n: nat): MState
    requires f in P
  {
    MState(st.m.(pc := P[f].at), st.frames + [Frame(f, st.m.pc + 3, |st.m.stack|, n)], false)
  }

  /** The result of a body, with the procret that closes it. */
  ghost function Body(A: Arith, P: Program, f: Name, d: Data, depth: nat, h: nat, gas: nat): SResult
    requires f in P
  {
    match Perform(A, P, P[f].body, Site(P[f].kind, depth, true), d, h, gas)
    case Norm(d2, g2) => Leave(Site(P[f].kind, depth, true), d2.env, g2)
    case other => other
  }

  lemma BodyIsInvoke(A: Arith, P: Program, f: Name, args: Args, s: Site, data: Data, h: nat, gas: nat)
    requires f in P && s.depth < NFRAME - 1 && s.emitted
    ensures var o := EvalArgs(A, P, args, s, data, h, gas);
            o.Vals? && o.gas > 0 ==>
              Invoke(A, P, f, args, s, data, h, gas) == Body(A, P, f, Data(o.data.env, o.vs), s.depth + 1, h + |o.vs|,
                  o.gas - 1)
  {
    hide EvalArgs, Perform, Leave;
  }

  lemma EntersBody(P: Program, st: MState, s: Site, data: Data, d1: Data, q: nat, f: Name, vs: seq<Num>)
    requires Holds(P, st, s, data) && |d1.args| == |data.args| && f in P && P[f].kind != Main
    ensures Fits(st, d1)
    ensures var st1 := After(st, d1, q, Nums(vs));
            var inner := Callee(P, f, st1, |vs|);
            Holds(P, inner, Site(P[f].kind, s.depth + 1, s.emitted), Data(d1.env, vs))
            && TopFrame(inner).top == |inner.m.stack| && inner.m.pc == P[f].at && |inner.m.stack| == |st.m.stack| + |vs|
  {
    AfterHolds(P, st, s, data, d1, q, Nums(vs));
    var inner := Callee(P, f, After(st, d1, q, Nums(vs)), |vs|);
    assert inner.m.stack[ArgBase(inner)..ArgBase(inner) + |vs|] == Nums(vs);
  }

  /** BRel: the body as a nested execute. */
  ghost predicate BRel(A: Arith, P: Program, prog: seq<FCell>, gas: nat, inner: MState, r: SResult) {
    match r
    case Ret(v, env, g) => inner.frames != [] && 0 <= ArgBase(inner) <= |inner.m.stack|
        && FRun(A, P, prog, gas, inner) == Go(Returned(inner, v, env), g)
    case SFail(err, env) => FRun(A, P, prog, gas, inner) == MFail(err, env)
    case SOut => FRun(A, P, prog, gas, inner) == OutOfGas
    case Norm(_, _) => false
  }

  lemma CallLands(A: Arith, P: Program, prog: seq<FCell>, st: MState, d1: Data, q: nat, f: Name, vs: seq<Num>,
                  gas: nat, r: SResult)
    requires Fits(st, d1) && f in P && |st.frames| < NFRAME - 1 && !st.returning
    requires Cell(prog, q + 1) == SymRef(f) && Cell(prog, q + 2) == Int(|vs|)
    requires BRel(A, P, prog, gas, Callee(P, f, After(st, d1, q, Nums(vs)), |vs|), r)
    ensures var st1 := After(st, d1, q, Nums(vs));
            var o := FStep(A, P, prog, gas, CallI, SetPc(st1, st1.m.pc + 1));
            match r
            case Ret(v, env, g) => Fits(st, d1.(env := env)) && o == Go(After(st, d1.(env := env), q + 3, Pushed(v)), g)
            case SFail(err, env) => o == MFail(err, env)
            case SOut => o == OutOfGas
            case Norm(_, _) => true
  {
    hide FRun;
    var st1 := After(st, d1, q, Nums(vs));
    var inner := Callee(P, f, st1, |vs|);
    assert inner.frames[..|inner.frames| - 1] == st.frames;
    assert st1.m.stack[..|st.m.stack|] == Replace(st.m.stack, ArgBase(st), d1.args);
  }

  lemma {:induction false} BodySim(A: Arith, P: Program, prog: seq<FCell>, f: Name, inner: MState, s: Site, d: Data,
                                   gas: nat)
    requires WellFormed(P, prog) && f in P && s.kind == P[f].kind && s.depth > 0 && Holds(P, inner, s, d)
    requires TopFrame(inner).top == |inner.m.stack| && inner.m.pc == P[f].at && |inner.m.stack| <= NSTACK
    ensures BRel(A, P, prog, gas, inner, Body(A, P, f, d, s.depth, |inner.m.stack|, gas))
    decreases gas, P[f].body, 2
  {
    hide FRun, FCodeAt, Perform, FStmtCode, StmtKindsOk, After, Fits, Leave;
    var body, p := P[f].body, P[f].at;
    var code := FStmtCode(body, p) + [Op(ProcRet)];
    assert FCodeAt(prog, p, code);
    FSplit(prog, p, FStmtCode(body, p), [Op(ProcRet)]);
    FCellAt(prog, p + FSize(body), [Op(ProcRet)], 0);
    StmtSim(A, P, prog, body, inner, s, d, gas);
    var o := Perform(A, P, body, s, d, |inner.m.stack|, gas);
    if o.Norm? { LeaveSim(A, P, prog, inner, s, d, o.data, p + FSize(body), o.gas); }
  }

  /** procret, with nothing on the stack above the arguments. */
  lemma LeaveSim(A: Arith, P: Program, prog: seq<FCell>, st: MState, s: Site, data: Data, d: Data, q: nat, gas: nat)
    requires Holds(P, st, s, data) && s.depth > 0 && |d.args| == |data.args| && TopFrame(st).top == |st.m.stack|
    requires Cell(prog, q) == Op(ProcRet)
    ensures Fits(st, d) && 0 <= ArgBase(st) <= |st.m.stack|
    ensures var st1, r := After(st, d, q, []), Leave(s, d.env, gas);
            match r
            case Ret(v, env, g) => FRun(A, P, prog, gas, st1) == Go(Returned(st, v, env), g)
            case SFail(err, env) => FRun(A, P, prog, gas, st1) == MFail(err, env)
            case SOut => FRun(A, P, prog, gas, st1) == OutOfGas
            case Norm(_, _) => false
  {
    AfterHolds(P, st, s, data, d, q, []);
    var st1 := After(st, d, q, []);
    DispatchSimple(A, P, prog, gas, ProcRet, st1);
    assert st1.m.stack[..ArgBase(st)] == st.m.stack[..ArgBase(st)];
    if gas > 0 && s.kind == Proc {
      var r := Returned(st, None, d.env);
      assert st1.m.stack[..|st1.m.stack| - TopFrame(st).nargs] + [] == r.m.stack;
      RunsNoFurther(A, P, prog, gas - 1, r);
    }
  }

  lemma RunsNoFurther(A: Arith, P: Program, prog: seq<FCell>, gas: nat, st: MState)
    requires st.returning || Cell(prog, st.m.pc).Stop?
    ensures FRun(A, P, prog, gas, st) == Go(st, gas)
  {
  }

  lemma {:induction false} CallSim(A: Arith, P: Program, prog: seq<FCell>, e: FExpr, st: MState, s: Site, data: Data,
                                   gas: nat)
    requires e.KCall? && EPre(P, prog, e, st, s, data)
    ensures ESim(A, P, prog, e, st, s, data, gas)
    decreases gas, e, 0
  {
    hide FRun, FCodeAt, Holds, EvalArgs, After, Fits, Perform, Invoke, WellFormed;
    InvokeSim(A, P, prog, e.f, e.args, st, s, data, gas);
    FuncReturnsValue(A, P, e.f, e.args, s, data, |st.m.stack|, gas);
    var o := EvalArgs(A, P, e.args, s, data, |st.m.stack|, gas);
    if o.Vals? { AfterHolds(P, st, s, data, o.data, st.m.pc, []); FitsEnv(st, o.data); }
  }

  lemma FitsEnv(st: MState, d: Data)
    requires Fits(st, d)
    ensures forall env: Env :: Fits(st, d.(env := env))
  {
  }

  lemma FuncReturnsValue(A: Arith, P: Program, f: Name, args: Args, s: Site, data: Data, h: nat, gas: nat)
    requires f in P && P[f].kind != Main
    ensures var r := Invoke(A, P, f, args, s, data, h, gas);
            r.Ret? ==> (P[f].kind == Func ==> r.v.Some?) && (P[f].kind == Proc ==> r.v.None?)
  {
    hide EvalArgs, Perform;
    var o := EvalArgs(A, P, args, s, data, h, gas);
    if o.Vals? && o.gas > 0 {
      ReturnsByKind(A, P, P[f].body, Site(P[f].kind, s.depth + 1, s.emitted), Data(o.data.env, o.vs), h + |o.vs|,
          o.gas - 1);
    }
  }

  // ---------------------------------------------------------------- statements

  /** The stack holds nothing above the arguments of the current call. */
  ghost predicate AtBase(st: MState) { st.frames != [] ==> TopFrame(st).top == |st.m.stack| }

  ghost predicate SPre(P: Program, prog: seq<FCell>, c: FStmt, st: MState, s: Site, data: Data) {
    && WellFormed(P, prog) && StmtKindsOk(P, c, s.depth > 0) && FCodeAt(prog, st.m.pc, FStmtCode(c, st.m.pc))
    && Holds(P, st, s, data) && |st.m.stack| <= NSTACK && AtBase(st)
  }

  ghost predicate SSim(A: Arith, P: Program, prog: seq<FCell>, c: FStmt, st: MState, s: Site, data: Data, gas: nat) {
    SRel(A, P, prog, gas, st, st.m.pc + FSize(c), Perform(A, P, c, s, data, |st.m.stack|, gas))
  }

  /** Every statement does what direct evaluation says; a return unwinds whatever surrounds it. */
  lemma {:induction false} StmtSim(A: Arith, P: Program, prog: seq<FCell>, c: FStmt, st: MState, s: Site, data: Data,
                                   gas: nat)
    requires SPre(P, prog, c, st, s, data)
    ensures SSim(A, P, prog, c, st, s, data, gas)
    decreases gas, c, 1
  {
    hide *;
    match c
    case KEmpty => EmptySim(A, P, prog, c, st, s, data, gas);
    case KThen(_, _) => ThenSim(A, P, prog, c, st, s, data, gas);
    case KEval(_) => DropSim(A, P, prog, c, st, s, data, gas);
    case KPrint(_) => DropSim(A, P, prog, c, st, s, data, gas);
    case KReturn => ReturnSim(A, P, prog, c, st, s, data, gas);
    case KReturnValue(_) => ReturnValueSim(A, P, prog, c, st, s, data, gas);
    case KProcedure(_, _) => ProcedureSim(A, P, prog, c, st, s, data, gas);
    case KIf(_, _) => IfSim(A, P, prog, c, st, s, data, gas);
    case KIfElse(_, _, _) => IfSim(A, P, prog, c, st, s, data, gas);
    case KWhile(_, _) => WhileSim(A, P, prog, c, st, s, data, gas);
    case KFor(_, _, _, _) => ForSim(A, P, prog, c, st, s, data, gas);
  }

  lemma EmptySim(A: Arith, P: Program, prog: seq<FCell>, c: FStmt, st: MState, s: Site, data: Data, gas: nat)
    requires c.KEmpty? && SPre(P, prog, c, st, s, data)
    ensures SSim(A, P, prog, c, st, s, data, gas)
  {
    hide FRun, WellFormed, FCodeAt;
    AfterSelf(P, st, s, data);
  }

  lemma {:induction false} ThenSim(A: Arith, P: Program, prog: seq<FCell>, c: FStmt, st: MState, s: Site, data: Data,
                                   gas: nat)
    requires c.KThen? && SPre(P, prog, c, st, s, data)
    ensures SSim(A, P, prog, c, st, s, data, gas)
    decreases gas, c, 0
  {
    hide FRun, WellFormed, FCodeAt, Holds, After, Fits, Returned, ArgBase;
    var p, q, n := st.m.pc, st.m.pc + FSize(c.s), |st.m.stack|;
    FSplit(prog, p, FStmtCode(c.s, p), FStmtCode(c.t, q));
    StmtSim(A, P, prog, c.s, st, s, data, gas);
    var o := Perform(A, P, c.s, s, data, n, gas);
    if o.Norm? {
      AfterHolds(P, st, s, data, o.data, q, []);
      AfterPc(st, o.data, q, []);
      var st1 := After(st, o.data, q, []);
      StmtSim(A, P, prog, c.t, st1, s, o.data, o.gas);
      RelAfter(A, P, prog, gas, o.gas, st, o.data, q, q + FSize(c.t), Perform(A, P, c.t, s, o.data, n, o.gas));
    }
  }

  /** A statement that starts where another left off. */
  lemma RelAfter(A: Arith, P: Program, prog: seq<FCell>, gas: nat, g1: nat, st: MState, d1: Data, q1: nat, q: nat,
                 r: SResult)
    requires Fits(st, d1) && FRun(A, P, prog, gas, st) == FRun(A, P, prog, g1, After(st, d1, q1, []))
    requires SRel(A, P, prog, g1, After(st, d1, q1, []), q, r) && (r.Norm? ==> |r.data.args| == |d1.args|)
    ensures SRel(A, P, prog, gas, st, q, r)
  {
    hide FRun;
    match r
    case Norm(d, g) =>
      var none: seq<HM.Datum> := [];
      AfterAfter(st, d1, q1, none, d, q, none);
      assert none + none == none;
    case Ret(v, env, g) => ReturnedAfter(st, d1, q1, v, env);
    case _ =>
  }

  lemma ReturnedAfter(st: MState, d1: Data, q1: nat, v: Option<Num>, env: Env)
    requires Fits(st, d1) && st.frames != []
    ensures 0 <= ArgBase(st) <= |st.m.stack| && Returned(After(st, d1, q1, []), v, env) == Returned(st, v, env)
  {
    assert After(st, d1, q1, []).m.stack[..ArgBase(st)] == st.m.stack[..ArgBase(st)];
  }

  lemma {:induction false} DropSim(A: Arith, P: Program, prog: seq<FCell>, c: FStmt, st: MState, s: Site, data: Data,
                                   gas: nat)
    requires (c.KEval? || c.KPrint?) && SPre(P, prog, c, st, s, data)
    ensures SSim(A, P, prog, c, st, s, data, gas)
    decreases gas, c, 0
  {
    hide FRun, WellFormed, FCodeAt, Evaluate, Holds, After, Fits, FExprCode;
    var i := if c.KEval? then XPop else PrExpr;
    var p, q := st.m.pc, st.m.pc + |FExprCode(c.e)|;
    FSplit(prog, p, FExprCode(c.e), [Op(i)]);
    FCellAt(prog, q, [Op(i)], 0);
    ExprSim(A, P, prog, c.e, st, s, data, gas);
    var o := Evaluate(A, P, c.e, s, data, |st.m.stack|, gas);
    if o.Val? { DropLast(A, P, prog, i, st, s, data, o.data, q, o.v, o.gas); }
  }

  lemma DropLast(A: Arith, P: Program, prog: seq<FCell>, i: FInstr, st: MState, s: Site, data: Data, d: Data, q: nat,
                 v: Num, gas: nat)
    requires Holds(P, st, s, data) && Fits(st, d) && (i == XPop || i == PrExpr) && Cell(prog, q) == Op(i)
    ensures var d' := if i == XPop then d else d.(env := d.env.(out := d.env.out + [v]));
            Fits(st, d') && FRun(A, P, prog, gas, After(st, d, q, [HM.NumD(v)])) ==
              if gas == 0 then OutOfGas else FRun(A, P, prog, gas - 1, After(st, d', q + 1, []))
  {
    hide FRun, Holds, After, Fits, Below;
    FramesAre(P, st, s, data);
    BelowPush(st, d, q, [HM.NumD(v)]);
    DispatchSimple(A, P, prog, gas, i, After(st, d, q, [HM.NumD(v)]));
    BelowMoves(st, d, q, q + 1);
    HC.PushPop(Below(st, d, q + 1), HM.NumD(v));
    AfterEnv(st, d, q + 1, if i == XPop then d.env else d.env.(out := d.env.out + [v]), []);
    assert Below(st, d, q + 1).stack + [] == Below(st, d, q + 1).stack;
  }

  lemma ReturnSim(A: Arith, P: Program, prog: seq<FCell>, c: FStmt, st: MState, s: Site, data: Data, gas: nat)
    requires c.KReturn? && SPre(P, prog, c, st, s, data)
    ensures SSim(A, P, prog, c, st, s, data, gas)
  {
    hide FRun, WellFormed, FCodeAt, After, Fits, Returned, Leave;
    FCellAt(prog, st.m.pc, FStmtCode(c, st.m.pc), 0);
    AfterSelf(P, st, s, data);
    LeaveSim(A, P, prog, st, s, data, data, st.m.pc, gas);
  }

  lemma {:induction false} ReturnValueSim(A: Arith, P: Program, prog: seq<FCell>, c: FStmt, st: MState, s: Site,
                                          data: Data, gas: nat)
    requires c.KReturnValue? && SPre(P, prog, c, st, s, data)
    ensures SSim(A, P, prog, c, st, s, data, gas)
    decreases gas, c, 0
  {
    hide FRun, WellFormed, FCodeAt, Evaluate, After, Fits, Returned;
    var p, q := st.m.pc, st.m.pc + |FExprCode(c.e)|;
    FSplit(prog, p, FExprCode(c.e), [Op(FuncRet)]);
    FCellAt(prog, q, [Op(FuncRet)], 0);
    ExprSim(A, P, prog, c.e, st, s, data, gas);
    var o := Evaluate(A, P, c.e, s, data, |st.m.stack|, gas);
    if o.Val? { FuncRetSim(A, P, prog, st, s, data, o.data, q, o.v, o.gas); }
  }

  /** funcret, with the value on top of the arguments. */
  lemma FuncRetSim(A: Arith, P: Program, prog: seq<FCell>, st: MState, s: Site, data: Data, d: Data, q: nat, v: Num,
                   gas: nat)
    requires Holds(P, st, s, data) && s.depth > 0 && |d.args| == |data.args| && AtBase(st)
             && Cell(prog, q) == Op(FuncRet)
    ensures Fits(st, d) && 0 <= ArgBase(st) <= |st.m.stack| && st.frames != []
    ensures FRun(A, P, prog, gas, After(st, d, q, [HM.NumD(v)])) ==
            if gas == 0 then OutOfGas else if s.kind == Proc then MFail(ProcReturnsValue, d.env)
            else Go(Returned(st, Some(v), d.env), gas - 1)
  {
    hide FRun;
    AfterHolds(P, st, s, data, d, q, [HM.NumD(v)]);
    var st1 := After(st, d, q, [HM.NumD(v)]);
    DispatchSimple(A, P, prog, gas, FuncRet, st1);
    if gas > 0 && s.kind != Proc {
      var m := HM.State(q + 1, Replace(st.m.stack, ArgBase(st), d.args), d.env);
      HC.PushPop(m, HM.NumD(v));
      assert m.stack[..|m.stack| - TopFrame(st).nargs] == st.m.stack[..ArgBase(st)];
      RunsNoFurther(A, P, prog, gas - 1, Returned(st, Some(v), d.env));
    }
  }

  lemma {:induction false} ProcedureSim(A: Arith, P: Program, prog: seq<FCell>, c: FStmt, st: MState, s: Site,
                                        data: Data, gas: nat)
    requires c.KProcedure? && SPre(P, prog, c, st, s, data)
    ensures SSim(A, P, prog, c, st, s, data, gas)
    decreases gas, c, 0
  {
    hide FRun, FCodeAt, Holds, EvalArgs, After, Fits, Invoke, WellFormed;
    InvokeSim(A, P, prog, c.f, c.args, st, s, data, gas);
    FuncReturnsValue(A, P, c.f, c.args, s, data, |st.m.stack|, gas);
    var o := EvalArgs(A, P, c.args, s, data, |st.m.stack|, gas);
    if o.Vals? { AfterHolds(P, st, s, data, o.data, st.m.pc, []); FitsEnv(st, o.data); }
  }

  // ---------------------------------------------------------------- statements that re-enter execute

  /** What a nested execute, or an instruction that makes one, comes back with. */
  ghost predicate LRel(o: MResult, st: MState, q: nat, r: SResult) {
    match r
    case Norm(d, g) => Fits(st, d) && o == Go(After(st, d, q, []), g)
    case Ret(v, env, g) => st.frames != [] && 0 <= ArgBase(st) <= |st.m.stack| && o == Go(Returned(st, v, env), g)
    case SFail(err, env) => o == MFail(err, env)
    case SOut => o == OutOfGas
  }

  /** An instruction that comes back so makes the whole statement so. */
  lemma InstrSim(A: Arith, P: Program, prog: seq<FCell>, i: FInstr, st: MState, q: nat, gas: nat, r: SResult)
    requires Cell(prog, st.m.pc) == Op(i) && !st.returning
    requires gas > 0 ==> LRel(FStep(A, P, prog, gas - 1, i, SetPc(st, st.m.pc + 1)), st, q, r)
    requires gas == 0 ==> r == SOut
    ensures SRel(A, P, prog, gas, st, q, r)
  {
    hide FStep, FRun;
    Dispatch(A, P, prog, gas, i, st);
    if r.Ret? { RunsNoFurther(A, P, prog, r.gas, Returned(st, r.v, r.env)); }
  }

  lemma PcIrrelevant(P: Program, st: MState, at: nat, s: Site, data: Data)
    requires Holds(P, st, s, data)
    ensures Holds(P, SetPc(st, at), s, data) && SetPc(st, at).m.pc == at && SetPc(st, at).m.stack == st.m.stack
            && SetPc(st, at).frames == st.frames
    ensures AtBase(st) == AtBase(SetPc(st, at)) && ArgBase(st) == ArgBase(SetPc(st, at))
  {
  }

  lemma PcAfter(st: MState, at: nat, d: Data, q: nat, push: seq<HM.Datum>)
    requires Fits(st, d) || Fits(SetPc(st, at), d)
    ensures Fits(st, d) && Fits(SetPc(st, at), d) && After(SetPc(st, at), d, q, push) == After(st, d, q, push)
  {
  }

  lemma PcReturned(st: MState, at: nat, v: Option<Num>, env: Env)
    requires st.frames != [] && 0 <= ArgBase(SetPc(st, at)) <= |st.m.stack|
    ensures ArgBase(st) == ArgBase(SetPc(st, at)) && Returned(SetPc(st, at), v, env) == Returned(st, v, env)
  {
  }

  ghost predicate CPre(P: Program, prog: seq<FCell>, e: FExpr, at: nat, st: MState, s: Site, data: Data) {
    && WellFormed(P, prog) && KindsOk(P, e, s.depth > 0) && FCodeAt(prog, at, Closed(e))
    && Holds(P, st, s, data) && |st.m.stack| <= NSTACK
  }

  /** A nested execute of an expression closed by STOP. */
  ghost predicate CRel(o: MResult, st: MState, q: nat, r: EResult) {
    match r
    case Val(v, d, g) => Fits(st, d) && o == Go(After(st, d, q, [HM.NumD(v)]), g)
    case EFail(err, env) => o == MFail(err, env)
    case EOut => o == OutOfGas
  }

  lemma {:induction false} ClosedSim(A: Arith, P: Program, prog: seq<FCell>, e: FExpr, at: nat, st: MState, s: Site,
                                     data: Data, gas: nat)
    requires CPre(P, prog, e, at, st, s, data)
    ensures CRel(FRun(A, P, prog, gas, SetPc(st, at)), st, at + |FExprCode(e)|,
            Evaluate(A, P, e, s, data, |st.m.stack|, gas))
    decreases gas, e, 2
  {
    hide FRun, WellFormed, FCodeAt, Holds, Evaluate, FExprCode, KindsOk, After, Fits;
    FSplit(prog, at, FExprCode(e), [Stop]);
    FCellAt(prog, at + |FExprCode(e)|, [Stop], 0);
    PcIrrelevant(P, st, at, s, data);
    ExprSim(A, P, prog, e, SetPc(st, at), s, data, gas);
    var o := Evaluate(A, P, e, s, data, |st.m.stack|, gas);
    if o.Val? {
      PcAfter(st, at, o.data, at + |FExprCode(e)|, [HM.NumD(o.v)]);
      AfterPc(st, o.data, at + |FExprCode(e)|, [HM.NumD(o.v)]);
      RunsNoFurther(A, P, prog, o.gas, After(st, o.data, at + |FExprCode(e)|, [HM.NumD(o.v)]));
    }
  }

  /** The value of a closed expression can be popped again. */
  lemma AfterPop(st: MState, d: Data, q: nat, v: Num)
    requires Fits(st, d)
    ensures var st1 := After(st, d, q, [HM.NumD(v)]);
            st1.m.stack != [] && HM.Top(st1.m) == HM.NumD(v) && PoppedF(st1) == After(st, d, q, [])
  {
    HC.PushPop(After(st, d, q, []).m, HM.NumD(v));
  }

  lemma {:induction false} TestSim(A: Arith, P: Program, prog: seq<FCell>, e: FExpr, at: nat, st: MState, s: Site,
                                   data: Data, gas: nat)
    requires CPre(P, prog, e, at, st, s, data)
    ensures CRel(FTest(A, P, prog, gas, at, st), st, at + |FExprCode(e)|, Evaluate(A, P, e, s, data, |st.m.stack|, gas))
    decreases gas, e, 3
  {
    hide FRun, CPre, Evaluate, FExprCode, After, Fits;
    ClosedSim(A, P, prog, e, at, st, s, data, gas);
    var o := Evaluate(A, P, e, s, data, |st.m.stack|, gas);
    if o.Val? { AfterPop(st, o.data, at + |FExprCode(e)|, o.v); }
  }

  ghost predicate PPre(P: Program, prog: seq<FCell>, c: FStmt, at: nat, st: MState, s: Site, data: Data) {
    && WellFormed(P, prog) && StmtKindsOk(P, c, s.depth > 0) && FCodeAt(prog, at, FStmtCode(c, at) + [Stop])
    && Holds(P, st, s, data) && |st.m.stack| <= NSTACK && AtBase(st)
  }

  lemma {:induction false} PartSim(A: Arith, P: Program, prog: seq<FCell>, c: FStmt, at: nat, st: MState, s: Site,
                                   data: Data, gas: nat)
    requires PPre(P, prog, c, at, st, s, data)
    ensures LRel(FRun(A, P, prog, gas, SetPc(st, at)), st, at + FSize(c), Perform(A, P, c, s, data, |st.m.stack|, gas))
    decreases gas, c, 2
  {
    hide FRun, WellFormed, FCodeAt, Holds, Perform, FStmtCode, FSize, StmtKindsOk, After, Fits, AtBase, ArgBase,
        Returned;
    FSplit(prog, at, FStmtCode(c, at), [Stop]);
    FCellAt(prog, at + FSize(c), [Stop], 0);
    PcIrrelevant(P, st, at, s, data);
    StmtSim(A, P, prog, c, SetPc(st, at), s, data, gas);
    var o := Perform(A, P, c, s, data, |st.m.stack|, gas);
    if o.Norm? {
      PcAfter(st, at, o.data, at + FSize(c), []);
      AfterPc(st, o.data, at + FSize(c), []);
      RunsNoFurther(A, P, prog, o.gas, After(st, o.data, at + FSize(c), []));
    } else if o.Ret? {
      PcReturned(st, at, o.v, o.env);
    }
  }

  // ---------------------------------------------------------------- if

  function ThenAt(c: FStmt, p: nat): nat
    requires c.KIf? || c.KIfElse?
  {
    p + 4 + |Closed(c.c)|
  }

  function ElseAt(c: FStmt, p: nat): nat
    requires c.KIf? || c.KIfElse?
  {
    ThenAt(c, p) + FSize(c.s) + 1
  }

  lemma IfCells(prog: seq<FCell>, c: FStmt, p: nat)
    requires (c.KIf? || c.KIfElse?) && FCodeAt(prog, p, FStmtCode(c, p))
    ensures Cell(prog, p) == Op(IfCode) && Cell(prog, p + 1) == Hole(c.s, ThenAt(c, p))
            && Cell(prog, p + 3) == Addr(p + FSize(c))
    ensures Cell(prog, p + 2) == if c.KIf? then Stop else Hole(c.t, ElseAt(c, p))
  {
    hide FCodeAt, FExprCode, FSize;
    FCellAt(prog, p, FStmtCode(c, p), 0); FCellAt(prog, p, FStmtCode(c, p), 1);
    FCellAt(prog, p, FStmtCode(c, p), 2); FCellAt(prog, p, FStmtCode(c, p), 3);
  }

  lemma IfParts(prog: seq<FCell>, c: FStmt, p: nat)
    requires (c.KIf? || c.KIfElse?) && FCodeAt(prog, p, FStmtCode(c, p))
    ensures FCodeAt(prog, p + 4, Closed(c.c))
    ensures FCodeAt(prog, ThenAt(c, p), FStmtCode(c.s, ThenAt(c, p)) + [Stop])
    ensures c.KIfElse? ==> FCodeAt(prog, ElseAt(c, p), FStmtCode(c.t, ElseAt(c, p)) + [Stop])
  {
    hide FCodeAt, FExprCode, Closed;
    var thn, els := ThenAt(c, p), ElseAt(c, p);
    var head := [Op(IfCode), Hole(c.s, thn), if c.KIf? then Stop else Hole(c.t, els), Addr(p + FSize(c))];
    var tail := FStmtCode(c.s, thn) + [Stop];
    if c.KIfElse? {
      assert FStmtCode(c, p) == (head + Closed(c.c) + tail) + (FStmtCode(c.t, els) + [Stop]);
      FSplit(prog, p, head + Closed(c.c) + tail, FStmtCode(c.t, els) + [Stop]);
    } else {
      assert FStmtCode(c, p) == head + Closed(c.c) + tail;
    }
    FSplit(prog, p, head + Closed(c.c), tail);
    FSplit(prog, p, head, Closed(c.c));
  }

  /** execute(*cell) of a part: through its address, or through the symbol a bare `return` left there. */
  lemma {:induction false} EnterSim(A: Arith, P: Program, prog: seq<FCell>, part: FStmt, cell: nat, at: nat, st: MState,
                                    s: Site, data: Data, gas: nat)
    requires Cell(prog, cell) == Hole(part, at) && Holds(P, st, s, data)
    requires !part.KReturn? ==> PPre(P, prog, part, at, st, s, data)
    ensures LRel(FEnter(A, P, prog, gas, cell, st), st, at + FSize(part),
            PartOf(A, P, part, s, data, |st.m.stack|, gas))
    decreases gas, part, 3
  {
    hide FRun, Perform, PPre, Holds, FSize;
    FramesAre(P, st, s, data);
    if !part.KReturn? { PartSim(A, P, prog, part, at, st, s, data, gas); }
  }

  /** pc goes on at `end` unless the part has returned. */
  lemma ResumeSim(prog: seq<FCell>, cell: nat, end: nat, q: nat, o: MResult, st: MState, r: SResult)
    requires Cell(prog, cell) == Addr(end) && LRel(o, st, q, r) && !st.returning
    ensures LRel(if o.Go? then Resume(prog, cell, o.st, o.gas) else o, st, end, r)
  {
  }

  /** A part that runs after the condition has been popped. */
  lemma FromCond(st: MState, d1: Data, q1: nat, q: nat, o: MResult, r: SResult)
    requires Fits(st, d1) && LRel(o, After(st, d1, q1, []), q, r) && (r.Norm? ==> |r.data.args| == |d1.args|)
    ensures LRel(o, st, q, r)
  {
    match r
    case Norm(d, g) => AfterAfter(st, d1, q1, [], d, q, []);
    case Ret(v, env, g) => ReturnedAfter(st, d1, q1, v, env);
    case _ =>
  }

  lemma BranchUnfold(A: Arith, P: Program, prog: seq<FCell>, gas: nat, save: nat, st: MState)
    ensures var t := FTest(A, P, prog, gas, save + 3, st);
            FBranch(A, P, prog, gas, save, st) ==
              if !t.Go? then t
              else var b := if A.isZero(HM.Top(t.st.m).v)
                            then if Cell(prog, save + 1).Stop? then Go(PoppedF(t.st), t.gas)
                                else FEnter(A, P, prog, t.gas, save + 1, PoppedF(t.st))
                            else FEnter(A, P, prog, t.gas, save, PoppedF(t.st));
                   if b.Go? then Resume(prog, save + 2, b.st, b.gas) else b
  {
    hide FTest, FEnter, Resume;
  }

  lemma {:induction false} BranchSim(A: Arith, P: Program, prog: seq<FCell>, c: FStmt, p: nat, st: MState, s: Site,
                                     data: Data, gas: nat)
    requires (c.KIf? || c.KIfElse?) && FCodeAt(prog, p, FStmtCode(c, p)) && WellFormed(P, prog)
             && StmtKindsOk(P, c, s.depth > 0)
    requires Holds(P, st, s, data) && |st.m.stack| <= NSTACK && AtBase(st)
    ensures LRel(FBranch(A, P, prog, gas, p + 1, st), st, p + FSize(c),
            Perform(A, P, c, s, data, |st.m.stack|, gas + 1))
    decreases gas, c, 0
  {
    hide FRun, FTest, FEnter, FBranch, FLoop, FFor, FStep, Turns, EvalArgs, Invoke, Resume, WellFormed, FCodeAt,
        Holds, Evaluate, FExprCode, Closed, FStmtCode, FSize, KindsOk, After, Fits, AtBase, ArgBase, Returned, ThenAt,
            ElseAt, PartOf;
    IfCells(prog, c, p);
    IfParts(prog, c, p);
    TestSim(A, P, prog, c.c, p + 4, st, s, data, gas);
    BranchUnfold(A, P, prog, gas, p + 1, st);
    var o, q := Evaluate(A, P, c.c, s, data, |st.m.stack|, gas), p + 4 + |FExprCode(c.c)|;
    FramesAre(P, st, s, data);
    if o.Val? {
      AfterPop(st, o.data, q, o.v);
      AfterHolds(P, st, s, data, o.data, q, []);
      AfterPc(st, o.data, q, []);
      var mid := After(st, o.data, q, []);
      BaseStays(st, o.data, q);
      if A.isZero(o.v) && c.KIf? {
        NormSkips(prog, p + 3, p + FSize(c), q, st, o.data, o.gas);
      } else {
        var part, at := if A.isZero(o.v) then c.t else c.s, if A.isZero(o.v) then ElseAt(c, p) else ThenAt(c, p);
        EnterSim(A, P, prog, part, if A.isZero(o.v) then p + 2 else p + 1, at, mid, s, o.data, o.gas);
        var r := PartOf(A, P, part, s, o.data, |st.m.stack|, o.gas);
        var b := FEnter(A, P, prog, o.gas, if A.isZero(o.v) then p + 2 else p + 1, mid);
        FromCond(st, o.data, q, at + FSize(part), b, r);
        ResumeSim(prog, p + 3, p + FSize(c), at + FSize(part), b, st, r);
      }
    }
  }

  lemma BaseStays(st: MState, d: Data, q: nat)
    requires Fits(st, d)
    ensures AtBase(After(st, d, q, [])) == AtBase(st)
  {
  }

  lemma NormSkips(prog: seq<FCell>, cell: nat, end: nat, q: nat, st: MState, d: Data, gas: nat)
    requires Fits(st, d) && Cell(prog, cell) == Addr(end) && !st.returning
    ensures LRel(Resume(prog, cell, After(st, d, q, []), gas), st, end, Norm(d, gas))
  {
  }

  lemma {:induction false} IfSim(A: Arith, P: Program, prog: seq<FCell>, c: FStmt, st: MState, s: Site, data: Data,
                                 gas: nat)
    requires (c.KIf? || c.KIfElse?) && SPre(P, prog, c, st, s, data)
    ensures SSim(A, P, prog, c, st, s, data, gas)
    decreases gas, c, 0
  {
    hide FRun, FBranch, WellFormed, FCodeAt, Holds, Evaluate, FStmtCode, FSize, StmtKindsOk, LRel, AtBase;
    IfCells(prog, c, st.m.pc);
    FramesAre(P, st, s, data);
    if gas > 0 {
      PcIrrelevant(P, st, st.m.pc + 1, s, data);
      BranchSim(A, P, prog, c, st.m.pc, SetPc(st, st.m.pc + 1), s, data, gas - 1);
      RelPc(P, FBranch(A, P, prog, gas - 1, st.m.pc + 1, SetPc(st, st.m.pc + 1)), st, st.m.pc + 1, st.m.pc + FSize(c),
          s, data, Perform(A, P, c, s, data, |st.m.stack|, gas));
    }
    InstrSim(A, P, prog, IfCode, st, st.m.pc + FSize(c), gas, Perform(A, P, c, s, data, |st.m.stack|, gas));
  }

  lemma RelPc(P: Program, o: MResult, st: MState, at: nat, q: nat, s: Site, data: Data, r: SResult)
    requires Holds(P, st, s, data) && LRel(o, SetPc(st, at), q, r)
    ensures LRel(o, st, q, r)
  {
    hide Holds, After, Fits, Returned, ArgBase;
    match r
    case Norm(d, _) => PcAfter(st, at, d, q, []);
    case Ret(v, env, _) => PcReturned(st, at, v, env);
    case _ =>
  }

  // ---------------------------------------------------------------- while and for

  /** Where the cell leads, if it is an address. */
  function BodyAt(prog: seq<FCell>, cell: nat): nat {
    match Cell(prog, cell) case Addr(k) => k case _ => 0
  }

  ghost predicate LoopLayout(P: Program, prog: seq<FCell>, c: FExpr, post: Option<FExpr>, body: FStmt,
                             cond: nat, postCell: Option<nat>, bodyCell: nat, endCell: nat, end: nat, inside: bool)
  {
    && FCodeAt(prog, cond, Closed(c)) && KindsOk(P, c, inside) && StmtKindsOk(P, body, inside)
    && Cell(prog, endCell) == Addr(end)
    && Cell(prog, bodyCell) == Hole(body, BodyAt(prog, bodyCell))
    && (!body.KReturn? ==> FCodeAt(prog, BodyAt(prog, bodyCell), FStmtCode(body, BodyAt(prog, bodyCell)) + [Stop]))
    && post.Some? == postCell.Some?
    && (post.Some? ==>
         Cell(prog, postCell.value).Addr? && KindsOk(P, post.value, inside)
         && FCodeAt(prog, Cell(prog, postCell.value).k, Closed(post.value)))
  }

  lemma {:induction false} PostSim(A: Arith, P: Program, prog: seq<FCell>, post: Option<FExpr>, cell: Option<nat>,
                                   st: MState, s: Site, data: Data, gas: nat)
    requires WellFormed(P, prog) && Holds(P, st, s, data) && |st.m.stack| <= NSTACK && post.Some? == cell.Some?
    requires post.Some? ==>
               Cell(prog, cell.value).Addr? && KindsOk(P, post.value, s.depth > 0)
               && FCodeAt(prog, Cell(prog, cell.value).k, Closed(post.value))
    ensures LRel(FPost(A, P, prog, gas, cell, st), st, if post.None? then st.m.pc
            else Cell(prog, cell.value).k + |FExprCode(post.value)|,
              PostOf(A, P, post, s, data, |st.m.stack|, gas))
    decreases gas, post, 4
  {
    hide FRun, WellFormed, FCodeAt, Holds, Evaluate, FExprCode, Closed, KindsOk, After, Fits;
    if post.None? {
      AfterSelf(P, st, s, data);
    } else {
      var at := Cell(prog, cell.value).k;
      ClosedSim(A, P, prog, post.value, at, st, s, data, gas);
      var o := Evaluate(A, P, post.value, s, data, |st.m.stack|, gas);
      if o.Val? { AfterPop(st, o.data, at + |FExprCode(post.value)|, o.v); }
    }
  }

  lemma LoopUnfold(A: Arith, P: Program, prog: seq<FCell>, gas: nat, cond: nat, post: Option<nat>, body: nat,
                   end: nat, st: MState)
    ensures var t := FTest(A, P, prog, gas, cond, st);
            FLoop(A, P, prog, gas, cond, post, body, end, st) ==
              if !t.Go? then t
              else if A.isZero(HM.Top(t.st.m).v) then Resume(prog, end, PoppedF(t.st), t.gas)
              else var b := FEnter(A, P, prog, t.gas, body, PoppedF(t.st));
                   if !b.Go? || b.st.returning then b
                   else var n := FPost(A, P, prog, b.gas, post, b.st);
                        if !n.Go? then n else if n.gas >= gas then OutOfGas
                            else FLoop(A, P, prog, n.gas, cond, post, body, end, n.st)
  {
    hide FTest, FEnter, Resume, FPost;
  }

  lemma TurnsUnfold(A: Arith, P: Program, c: FExpr, post: Option<FExpr>, body: FStmt, s: Site, data: Data, h: nat,
                    gas: nat)
    ensures var o := Evaluate(A, P, c, s, data, h, gas);
            Turns(A, P, c, post, body, s, data, h, gas) ==
              if !o.Val? then OfCond(o)
              else if A.isZero(o.v) then Norm(o.data, o.gas)
              else var b := PartOf(A, P, body, s, o.data, h, o.gas);
                   if !b.Norm? then b
                   else var n := PostOf(A, P, post, s, b.data, h, b.gas);
                        if !n.Norm? then n else Turns(A, P, c, post, body, s, n.data, h, n.gas)
  {
    hide Evaluate, PartOf, PostOf;
  }

  ghost predicate LPre(P: Program, prog: seq<FCell>, st: MState, s: Site, data: Data) {
    WellFormed(P, prog) && Holds(P, st, s, data) && |st.m.stack| <= NSTACK && AtBase(st)
  }

  lemma {:induction false} TurnsSim(A: Arith, P: Program, prog: seq<FCell>, c: FExpr, post: Option<FExpr>,
                                    body: FStmt, cond: nat, postCell: Option<nat>,
                                    bodyCell: nat, endCell: nat, end: nat, st: MState, s: Site, data: Data, gas: nat)
    requires LoopLayout(P, prog, c, post, body, cond, postCell, bodyCell, endCell, end, s.depth > 0)
             && LPre(P, prog, st, s, data)
    ensures LRel(FLoop(A, P, prog, gas, cond, postCell, bodyCell, endCell, st), st, end,
            Turns(A, P, c, post, body, s, data, |st.m.stack|, gas))
    decreases gas, c, 4
  {
    hide *;
    var h, q := |st.m.stack|, cond + |FExprCode(c)|;
    var o, t := Evaluate(A, P, c, s, data, h, gas), FTest(A, P, prog, gas, cond, st);
    LoopTest(P, prog, c, post, body, cond, postCell, bodyCell, endCell, end, st, s, data);
    TestSim(A, P, prog, c, cond, st, s, data, gas);
    LoopUnfold(A, P, prog, gas, cond, postCell, bodyCell, endCell, st);
    TurnsUnfold(A, P, c, post, body, s, data, h, gas);
    if o.Val? {
      CondHolds(t, st, q, o);
      PreReturning(P, prog, st, s, data);
      if A.isZero(o.v) {
        NormSkips(prog, endCell, end, q, st, o.data, o.gas);
      } else {
        PreAfter(P, prog, st, s, data, o.data, q);
        TurnSim(A, P, prog, c, post, body, cond, postCell, bodyCell, endCell, end, st, s, data, o.data, q, gas, o.gas);
        RestIs(A, P, prog, c, post, body, cond, postCell, bodyCell, endCell, s, o.data, h, gas, o.gas,
            After(st, o.data, q, []));
      }
    } else {
      CondFails(t, st, q, end, o);
    }
  }

  lemma LoopTest(P: Program, prog: seq<FCell>, c: FExpr, post: Option<FExpr>, body: FStmt, cond: nat,
                 postCell: Option<nat>,
                 bodyCell: nat, endCell: nat, end: nat, st: MState, s: Site, data: Data)
    requires LoopLayout(P, prog, c, post, body, cond, postCell, bodyCell, endCell, end, s.depth > 0)
             && LPre(P, prog, st, s, data)
    ensures CPre(P, prog, c, cond, st, s, data) && Cell(prog, endCell) == Addr(end)
  {
    hide FCodeAt, WellFormed, Holds;
  }

  lemma CondHolds(t: MResult, st: MState, q: nat, o: EResult)
    requires CRel(t, st, q, o) && o.Val?
    ensures Fits(st, o.data) && t.Go? && t.gas == o.gas && t.st.m.stack != [] && HM.Top(t.st.m) == HM.NumD(o.v)
            && PoppedF(t.st) == After(st, o.data, q, [])
  {
    AfterPop(st, o.data, q, o.v);
  }

  lemma CondFails(t: MResult, st: MState, q: nat, end: nat, o: EResult)
    requires CRel(t, st, q, o) && !o.Val?
    ensures !t.Go? && LRel(t, st, end, OfCond(o))
  {
  }

  /** What follows a test that succeeded: the body, the post expression, and the next turn. */
  ghost function RestM(A: Arith, P: Program, prog: seq<FCell>, gas: nat, g1: nat, cond: nat, postCell: Option<nat>,
                       bodyCell: nat, endCell: nat, mid: MState): MResult {
    var b := FEnter(A, P, prog, g1, bodyCell, mid);
    if !b.Go? || b.st.returning then b
    else var n := FPost(A, P, prog, b.gas, postCell, b.st);
         if !n.Go? then n else if n.gas >= gas then OutOfGas
             else FLoop(A, P, prog, n.gas, cond, postCell, bodyCell, endCell, n.st)
  }

  ghost function RestE(A: Arith, P: Program, c: FExpr, post: Option<FExpr>, body: FStmt, s: Site, d1: Data, h: nat,
                       g1: nat): SResult {
    var b := PartOf(A, P, body, s, d1, h, g1);
    if !b.Norm? then b
    else var n := PostOf(A, P, post, s, b.data, h, b.gas);
         if !n.Norm? then n else Turns(A, P, c, post, body, s, n.data, h, n.gas)
  }

  lemma {:induction false} TurnSim(A: Arith, P: Program, prog: seq<FCell>, c: FExpr, post: Option<FExpr>, body: FStmt,
                                   cond: nat, postCell: Option<nat>,
                                   bodyCell: nat, endCell: nat, end: nat, st: MState, s: Site, data: Data, d1: Data,
                                       q: nat, gas: nat, g1: nat)
    requires LoopLayout(P, prog, c, post, body, cond, postCell, bodyCell, endCell, end, s.depth > 0)
             && LPre(P, prog, st, s, data)
    requires |d1.args| == |data.args| && g1 < gas && Fits(st, d1) && LPre(P, prog, After(st, d1, q, []), s, d1)
    ensures LRel(RestM(A, P, prog, gas, g1, cond, postCell, bodyCell, endCell, After(st, d1, q, [])), st, end,
            RestE(A, P, c, post, body, s, d1, |st.m.stack|, g1))
    decreases gas, c, 3
  {
    hide *;
    TurnBody(A, P, prog, c, post, body, cond, postCell, bodyCell, endCell, end, st, s, data, d1, q, g1);
    var at, r := BodyAt(prog, bodyCell), PartOf(A, P, body, s, d1, |st.m.stack|, g1);
    var b, q2 := FEnter(A, P, prog, g1, bodyCell, After(st, d1, q, [])), at + FSize(body);
    if r.Norm? {
      PreAfter(P, prog, st, s, data, r.data, q2);
      NextSim(A, P, prog, c, post, body, cond, postCell, bodyCell, endCell, end, st, s, data, r.data, q2, gas, r.gas);
    } else {
      RelAnyPc(b, st, q2, end, r);
    }
    PreReturning(P, prog, st, s, data);
    BodyThen(b, st, q2, r);
    RestIs(A, P, prog, c, post, body, cond, postCell, bodyCell, endCell, s, d1, |st.m.stack|, gas, g1,
        After(st, d1, q, []));
  }

  lemma PreReturning(P: Program, prog: seq<FCell>, st: MState, s: Site, data: Data)
    requires LPre(P, prog, st, s, data)
    ensures !st.returning
  {
  }

  lemma PreAfter(P: Program, prog: seq<FCell>, st: MState, s: Site, data: Data, d: Data, q: nat)
    requires LPre(P, prog, st, s, data) && |d.args| == |data.args|
    ensures Fits(st, d) && LPre(P, prog, After(st, d, q, []), s, d) && |After(st, d, q, []).m.stack| == |st.m.stack|
  {
    hide WellFormed;
    AfterHolds(P, st, s, data, d, q, []);
    BaseStays(st, d, q);
  }

  lemma RestIs(A: Arith, P: Program, prog: seq<FCell>, c: FExpr, post: Option<FExpr>, body: FStmt, cond: nat,
               postCell: Option<nat>,
               bodyCell: nat, endCell: nat, s: Site, d1: Data, h: nat, gas: nat, g1: nat, mid: MState)
    ensures var b := FEnter(A, P, prog, g1, bodyCell, mid);
            RestM(A, P, prog, gas, g1, cond, postCell, bodyCell, endCell, mid) ==
              if !b.Go? || b.st.returning then b
              else var n := FPost(A, P, prog, b.gas, postCell, b.st);
                   if !n.Go? then n else if n.gas >= gas then OutOfGas
                       else FLoop(A, P, prog, n.gas, cond, postCell, bodyCell, endCell, n.st)
    ensures var r := PartOf(A, P, body, s, d1, h, g1);
            RestE(A, P, c, post, body, s, d1, h, g1) ==
              if !r.Norm? then r
              else var n := PostOf(A, P, post, s, r.data, h, r.gas);
                   if !n.Norm? then n else Turns(A, P, c, post, body, s, n.data, h, n.gas)
  {
    hide FEnter, FPost, FLoop, PartOf, PostOf, Turns;
  }

  /** The body of a turn, entered from the state the test left. */
  lemma {:induction false} TurnBody(A: Arith, P: Program, prog: seq<FCell>, c: FExpr, post: Option<FExpr>,
                                    body: FStmt, cond: nat, postCell: Option<nat>,
                                    bodyCell: nat, endCell: nat, end: nat, st: MState, s: Site, data: Data, d1: Data,
                                        q: nat, g1: nat)
    requires LoopLayout(P, prog, c, post, body, cond, postCell, bodyCell, endCell, end, s.depth > 0)
             && LPre(P, prog, st, s, data)
    requires |d1.args| == |data.args| && Fits(st, d1) && LPre(P, prog, After(st, d1, q, []), s, d1)
    ensures LRel(FEnter(A, P, prog, g1, bodyCell, After(st, d1, q, [])), st, BodyAt(prog, bodyCell) + FSize(body),
            PartOf(A, P, body, s, d1, |st.m.stack|, g1))
    decreases g1, body, 4
  {
    hide LRel, FRun, FEnter, WellFormed, FCodeAt, Holds, Perform, PartOf, FStmtCode, FSize, KindsOk, StmtKindsOk,
        Closed,
        After, Fits, AtBase;
    var at, mid := BodyAt(prog, bodyCell), After(st, d1, q, []);
    AfterPc(st, d1, q, []);
    EnterSim(A, P, prog, body, bodyCell, at, mid, s, d1, g1);
    var r := PartOf(A, P, body, s, d1, |st.m.stack|, g1);
    FromCond(st, d1, q, at + FSize(body), FEnter(A, P, prog, g1, bodyCell, mid), r);
  }

  lemma RelAnyPc(o: MResult, st: MState, q: nat, q': nat, r: SResult)
    requires LRel(o, st, q, r) && !r.Norm?
    ensures LRel(o, st, q', r)
  {
  }

  lemma BodyThen(b: MResult, st: MState, q: nat, r: SResult)
    requires LRel(b, st, q, r) && !st.returning
    ensures r.Norm? <==> b.Go? && !b.st.returning
    ensures r.Norm? ==> Fits(st, r.data) && b == Go(After(st, r.data, q, []), r.gas)
  {
  }

  lemma {:induction false} NextSim(A: Arith, P: Program, prog: seq<FCell>, c: FExpr, post: Option<FExpr>, body: FStmt,
                                   cond: nat, postCell: Option<nat>,
                                   bodyCell: nat, endCell: nat, end: nat, st: MState, s: Site, data: Data, d2: Data,
                                       q: nat, gas: nat, g2: nat)
    requires LoopLayout(P, prog, c, post, body, cond, postCell, bodyCell, endCell, end, s.depth > 0)
             && LPre(P, prog, st, s, data)
    requires |d2.args| == |data.args| && g2 < gas && Fits(st, d2) && LPre(P, prog, After(st, d2, q, []), s, d2)
    ensures var n, e := FPost(A, P, prog, g2, postCell, After(st, d2, q, [])),
            PostOf(A, P, post, s, d2, |st.m.stack|, g2);
            LRel(if !n.Go? then n else if n.gas >= gas then OutOfGas
                else FLoop(A, P, prog, n.gas, cond, postCell, bodyCell, endCell, n.st),
                 st, end, if !e.Norm? then e else Turns(A, P, c, post, body, s, e.data, |st.m.stack|, e.gas))
    decreases gas, c, 2
  {
    hide FRun, FTest, FEnter, FLoop, FPost, Resume, WellFormed, FCodeAt, Holds, Evaluate, Perform, Turns, PostOf,
        FExprCode, Closed, FStmtCode, FSize, KindsOk, StmtKindsOk, After, Fits, AtBase, ArgBase, Returned;
    var st2, h := After(st, d2, q, []), |st.m.stack|;
    AfterPc(st, d2, q, []);
    PostSim(A, P, prog, post, postCell, st2, s, d2, g2);
    var e := PostOf(A, P, post, s, d2, h, g2);
    var q3 := if post.None? then st2.m.pc else Cell(prog, postCell.value).k + |FExprCode(post.value)|;
    FromCond(st, d2, q, q3, FPost(A, P, prog, g2, postCell, st2), e);
    if e.Norm? {
      AfterHolds(P, st, s, data, e.data, q3, []);
      AfterPc(st, e.data, q3, []);
      BaseStays(st, e.data, q3);
      var st3 := After(st, e.data, q3, []);
      TurnsSim(A, P, prog, c, post, body, cond, postCell, bodyCell, endCell, end, st3, s, e.data, e.gas);
      FromCond(st, e.data, q3, end, FLoop(A, P, prog, e.gas, cond, postCell, bodyCell, endCell, st3),
          Turns(A, P, c, post, body, s, e.data, h, e.gas));
    }
  }

  lemma WhileShape(c: FStmt, p: nat)
    requires c.KWhile?
    ensures FStmtCode(c, p) == [Op(WhileCode), Hole(c.s, p + 3 + |Closed(c.c)|), Addr(p + FSize(c))] + Closed(c.c)
            + (FStmtCode(c.s, p + 3 + |Closed(c.c)|) + [Stop])
  {
    hide FExprCode, Closed, FSize;
  }

  lemma WhileParts(P: Program, prog: seq<FCell>, c: FStmt, p: nat, inside: bool)
    requires c.KWhile? && FCodeAt(prog, p, FStmtCode(c, p)) && StmtKindsOk(P, c, inside)
    ensures Cell(prog, p) == Op(WhileCode) && LoopLayout(P, prog, c.c, None, c.s, p + 3, None, p + 1, p + 2, p
            + FSize(c), inside)
  {
    hide FCodeAt, FExprCode, Closed, FSize, KindsOk, FStmtCode;
    var body := p + 3 + |Closed(c.c)|;
    var head := [Op(WhileCode), Hole(c.s, body), Addr(p + FSize(c))];
    WhileShape(c, p);
    FSplit(prog, p, head + Closed(c.c), FStmtCode(c.s, body) + [Stop]);
    FSplit(prog, p, head, Closed(c.c));
    FCellAt(prog, p, head, 0); FCellAt(prog, p, head, 1); FCellAt(prog, p, head, 2);
  }

  lemma {:induction false} WhileSim(A: Arith, P: Program, prog: seq<FCell>, c: FStmt, st: MState, s: Site, data: Data,
                                    gas: nat)
    requires c.KWhile? && SPre(P, prog, c, st, s, data)
    ensures SSim(A, P, prog, c, st, s, data, gas)
    decreases gas, c, 0
  {
    hide FRun, FLoop, WellFormed, FCodeAt, Holds, Turns, FStmtCode, FSize, StmtKindsOk, LRel, AtBase, LoopLayout;
    var p := st.m.pc;
    WhileParts(P, prog, c, p, s.depth > 0);
    FramesAre(P, st, s, data);
    if gas > 0 {
      var st1 := SetPc(st, p + 1);
      PcIrrelevant(P, st, p + 1, s, data);
      TurnsSim(A, P, prog, c.c, None, c.s, p + 3, None, p + 1, p + 2, p + FSize(c), st1, s, data, gas - 1);
      RelPc(P, FLoop(A, P, prog, gas - 1, p + 3, None, p + 1, p + 2, st1), st, p + 1, p + FSize(c), s, data,
          Perform(A, P, c, s, data, |st.m.stack|, gas));
    }
    InstrSim(A, P, prog, WhileCode, st, p + FSize(c), gas, Perform(A, P, c, s, data, |st.m.stack|, gas));
  }

  function CondAt(c: FStmt, p: nat): nat
    requires c.KFor?
  {
    p + 5 + |Closed(c.init)|
  }

  lemma ForParts(P: Program, prog: seq<FCell>, c: FStmt, p: nat, inside: bool)
    requires c.KFor? && FCodeAt(prog, p, FStmtCode(c, p)) && StmtKindsOk(P, c, inside)
    ensures Cell(prog, p) == Op(ForCode) && Cell(prog, p + 1) == Addr(CondAt(c, p))
            && FCodeAt(prog, p + 5, Closed(c.init)) && KindsOk(P, c.init, inside)
    ensures LoopLayout(P, prog, c.c, Some(c.post), c.s, CondAt(c, p), Some(p + 2), p + 3, p + 4, p + FSize(c), inside)
  {
    hide FCodeAt, FExprCode, Closed, FSize, KindsOk;
    var cond := CondAt(c, p);
    var next := cond + |Closed(c.c)|;
    var body := next + |Closed(c.post)|;
    var head := [Op(ForCode), Addr(cond), Addr(next), Hole(c.s, body), Addr(p + FSize(c))];
    var tail := FStmtCode(c.s, body) + [Stop];
    assert FStmtCode(c, p) == head + Closed(c.init) + Closed(c.c) + Closed(c.post) + tail;
    FSplit(prog, p, head + Closed(c.init) + Closed(c.c) + Closed(c.post), tail);
    FSplit(prog, p, head + Closed(c.init) + Closed(c.c), Closed(c.post));
    FSplit(prog, p, head + Closed(c.init), Closed(c.c));
    FSplit(prog, p, head, Closed(c.init));
    FCellAt(prog, p, head, 0); FCellAt(prog, p, head, 1); FCellAt(prog, p, head, 2);
    FCellAt(prog, p, head, 3); FCellAt(prog, p, head, 4);
  }

  lemma {:induction false} ForBodySim(A: Arith, P: Program, prog: seq<FCell>, c: FStmt, p: nat, st: MState, s: Site,
                                      data: Data, gas: nat)
    requires c.KFor? && FCodeAt(prog, p, FStmtCode(c, p)) && StmtKindsOk(P, c, s.depth > 0)
             && LPre(P, prog, st, s, data)
    ensures LRel(FFor(A, P, prog, gas, p + 1, st), st, p + FSize(c), Perform(A, P, c, s, data, |st.m.stack|, gas + 1))
    decreases gas, c, 0
  {
    hide FRun, FLoop, WellFormed, FCodeAt, Holds, Evaluate, Turns, FStmtCode, FSize, StmtKindsOk, AtBase, LoopLayout,
        FExprCode, Closed, KindsOk, After, Fits, ArgBase, Returned;
    ForParts(P, prog, c, p, s.depth > 0);
    ClosedSim(A, P, prog, c.init, p + 5, st, s, data, gas);
    var h, q := |st.m.stack|, p + 5 + |FExprCode(c.init)|;
    var o := Evaluate(A, P, c.init, s, data, h, gas);
    if o.Val? {
      AfterPop(st, o.data, q, o.v);
      AfterHolds(P, st, s, data, o.data, q, []);
      AfterPc(st, o.data, q, []);
      BaseStays(st, o.data, q);
      var mid := After(st, o.data, q, []);
      TurnsSim(A, P, prog, c.c, Some(c.post), c.s, CondAt(c, p), Some(p + 2), p + 3, p + 4, p + FSize(c), mid, s,
          o.data, o.gas);
      FromCond(st, o.data, q, p + FSize(c), FLoop(A, P, prog, o.gas, CondAt(c, p), Some(p + 2), p + 3, p + 4, mid),
        Turns(A, P, c.c, Some(c.post), c.s, s, o.data, h, o.gas));
    }
  }

  lemma {:induction false} ForSim(A: Arith, P: Program, prog: seq<FCell>, c: FStmt, st: MState, s: Site, data: Data,
                                  gas: nat)
    requires c.KFor? && SPre(P, prog, c, st, s, data)
    ensures SSim(A, P, prog, c, st, s, data, gas)
    decreases gas, c, 0
  {
    hide FRun, FFor, WellFormed, FCodeAt, Holds, Evaluate, Turns, FStmtCode, FSize, StmtKindsOk, LRel, AtBase,
        LoopLayout;
    var p := st.m.pc;
    ForParts(P, prog, c, p, s.depth > 0);
    FramesAre(P, st, s, data);
    if gas > 0 {
      var st1 := SetPc(st, p + 1);
      PcIrrelevant(P, st, p + 1, s, data);
      ForBodySim(A, P, prog, c, p, st1, s, data, gas - 1);
      RelPc(P, FFor(A, P, prog, gas - 1, p + 1, st1), st, p + 1, p + FSize(c), s, data,
          Perform(A, P, c, s, data, |st.m.stack|, gas));
    }
    InstrSim(A, P, prog, ForCode, st, p + FSize(c), gas, Perform(A, P, c, s, data, |st.m.stack|, gas));
  }

  // ---------------------------------------------------------------- the main results

  /** Whatever the body does, a completed call ends just past its two operands, with the frame pointer
      restored, the flag clear, the arguments replaced by one result (none for a procedure), and
      everything below them untouched. */
  lemma CallContract(A: Arith, P: Program, prog: seq<FCell>, f: Name, st: MState, low: seq<HM.Datum>, vs: seq<Num>,
                     gas: nat)
    requires WellFormed(P, prog) && f in P && !st.returning && |st.frames| < NFRAME - 1
    requires st.m.stack == low + Nums(vs) && |st.m.stack| <= NSTACK
    requires Cell(prog, st.m.pc + 1) == SymRef(f) && Cell(prog, st.m.pc + 2) == Int(|vs|)
    ensures var o, r := FStep(A, P, prog, gas, CallI, SetPc(st, st.m.pc + 1)),
            Body(A, P, f, Data(st.m.env, vs), |st.frames| + 1, |st.m.stack|, gas);
            && (o.Go? <==> r.Ret?)
            && (o.Go? ==> o == Go(MState(HM.State(st.m.pc + 3, low + Pushed(r.v), r.env), st.frames, false), r.gas)
                          && (P[f].kind == Func ==> r.v.Some?) && (P[f].kind == Proc ==> r.v.None?))
  {
    hide FRun, WellFormed, Body;
    var inner, s, d := Callee(P, f, st, |vs|), Site(P[f].kind, |st.frames| + 1, true), Data(st.m.env, vs);
    NotMain(P, prog, f);
    assert inner.m.stack[ArgBase(inner)..ArgBase(inner) + |vs|] == Nums(vs);
    BodySim(A, P, prog, f, inner, s, d, gas);
    BodyByKind(A, P, f, d, |st.frames| + 1, |st.m.stack|, gas);
    assert inner.m.stack[..|low|] == low;
    assert inner.frames[..|inner.frames| - 1] == st.frames;
  }

  lemma BodyByKind(A: Arith, P: Program, f: Name, d: Data, depth: nat, h: nat, gas: nat)
    requires f in P && P[f].kind != Main && depth > 0
    ensures var r := Body(A, P, f, d, depth, h, gas);
            !r.Norm? && (r.Ret? ==> (P[f].kind == Func ==> r.v.Some?) && (P[f].kind == Proc ==> r.v.None?))
  {
    hide Perform;
    ReturnsByKind(A, P, P[f].body, Site(P[f].kind, depth, true), d, h, gas);
  }

  /** A whole line: execute(progbase) has the outcome of direct evaluation, instruction for instruction. */
  lemma LineIsCorrect(A: Arith, P: Program, prog: seq<FCell>, c: FStmt, at: nat, env: Env, gas: nat)
    requires WellFormed(P, prog) && StmtKindsOk(P, c, false) && FCodeAt(prog, at, FStmtCode(c, at) + [Stop])
    ensures var o, r := FRun(A, P, prog, gas, MState(HM.State(at, [], env), [], false)),
            Perform(A, P, c, Site(Main, 0, true), Data(env, []), 0, gas);
            match r
            case Norm(d, g) => o == Go(MState(HM.State(at + FSize(c), [], d.env), [], false), g)
            case SFail(err, env1) => o == MFail(err, env1)
            case SOut => o == OutOfGas
            case Ret(_, _, _) => false
  {
    hide FRun, WellFormed, FCodeAt, Perform, StmtKindsOk, FStmtCode;
    var st := MState(HM.State(at, [], env), [], false);
    PartSim(A, P, prog, c, at, st, Site(Main, 0, true), Data(env, []), gas);
    ReturnsByKind(A, P, c, Site(Main, 0, true), Data(env, []), 0, gas);
  }
}
