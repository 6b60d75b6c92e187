/**
 The count of dispatches does not matter: a run that ends within some count ends the same way within
 every larger one, with what was added left over.
 */
module HocGas {
  import opened HocLanguage
  import HM = HocMachine
  import opened HocFunctions
  import opened HocCalls
  import opened HocCallsCorrect

  function PlusM(r: MResult, k: nat): MResult { if r.Go? then r.(gas := r.gas + k) else r }

  // ---------------------------------------------------------------- the machine

  lemma {:induction false} MoreRun(A: Arith, P: Program, prog: seq<FCell>, gas: nat, st: MState, k: nat)
    requires !FRun(A, P, prog, gas, st).OutOfGas?
    ensures FRun(A, P, prog, gas + k, st) == PlusM(FRun(A, P, prog, gas, st), k)
    decreases gas, 0
  {
    hide FStep;
    if !Cell(prog, st.m.pc).Stop? && !st.returning && Cell(prog, st.m.pc).Op? {
      var i, st0 := Cell(prog, st.m.pc).i, SetPc(st, st.m.pc + 1);
      MoreStep(A, P, prog, gas - 1, i, st0, k);
      var o := FStep(A, P, prog, gas - 1, i, st0);
      if o.Go? { MoreRun(A, P, prog, o.gas, o.st, k); }
    }
  }

  lemma {:induction false} MoreStep(A: Arith, P: Program, prog: seq<FCell>, gas: nat, i: FInstr, st: MState, k: nat)
    requires !FStep(A, P, prog, gas, i, st).OutOfGas?
    ensures FStep(A, P, prog, gas + k, i, st) == PlusM(FStep(A, P, prog, gas, i, st), k)
    decreases gas, 5
  {
    hide FRun, FCall, FBranch, FLoop, FFor, FSimple;
    match i
    case CallI => MoreCall(A, P, prog, gas, st, k);
    case IfCode => MoreBranch(A, P, prog, gas, st.m.pc, st, k);
    case WhileCode => MoreLoop(A, P, prog, gas, st.m.pc + 2, None, st.m.pc, st.m.pc + 1, st, k);
    case ForCode => MoreFor(A, P, prog, gas, st.m.pc, st, k);
    case _ => MoreSimple(A, P, prog, i, st, gas, k);
  }

  lemma MoreSimple(A: Arith, P: Program, prog: seq<FCell>, i: FInstr, st: MState, gas: nat, k: nat)
    ensures FSimple(A, P, prog, i, st, gas + k) == PlusM(FSimple(A, P, prog, i, st, gas), k)
  {
  }

  lemma {:induction false} MoreTest(A: Arith, P: Program, prog: seq<FCell>, gas: nat, at: nat, st: MState, k: nat)
    requires !FTest(A, P, prog, gas, at, st).OutOfGas?
    ensures FTest(A, P, prog, gas + k, at, st) == PlusM(FTest(A, P, prog, gas, at, st), k)
    decreases gas, 1
  {
    hide FRun;
    MoreRun(A, P, prog, gas, SetPc(st, at), k);
  }

  lemma {:induction false} MoreEnter(A: Arith, P: Program, prog: seq<FCell>, gas: nat, cell: nat, st: MState, k: nat)
    requires !FEnter(A, P, prog, gas, cell, st).OutOfGas?
    ensures FEnter(A, P, prog, gas + k, cell, st) == PlusM(FEnter(A, P, prog, gas, cell, st), k)
    decreases gas, 1
  {
    hide FRun;
    var j := FJump(prog, cell, st, gas);
    if j.Go? { MoreRun(A, P, prog, gas, j.st, k); }
  }

  lemma {:induction false} MoreBranch(A: Arith, P: Program, prog: seq<FCell>, gas: nat, save: nat, st: MState, k: nat)
    requires !FBranch(A, P, prog, gas, save, st).OutOfGas?
    ensures FBranch(A, P, prog, gas + k, save, st) == PlusM(FBranch(A, P, prog, gas, save, st), k)
    decreases gas, 3
  {
    hide FRun, FTest, FEnter;
    MoreTest(A, P, prog, gas, save + 3, st, k);
    var o := FTest(A, P, prog, gas, save + 3, st);
    if o.Go? {
      var st2 := PoppedF(o.st);
      if !A.isZero(HM.Top(o.st.m).v) {
        MoreEnter(A, P, prog, o.gas, save, st2, k);
      } else if !Cell(prog, save + 1).Stop? {
        MoreEnter(A, P, prog, o.gas, save + 1, st2, k);
      }
    }
  }

  lemma {:induction false} MorePost(A: Arith, P: Program, prog: seq<FCell>, gas: nat, post: Option<nat>, st: MState,
                                    k: nat)
    requires !FPost(A, P, prog, gas, post, st).OutOfGas?
    ensures FPost(A, P, prog, gas + k, post, st) == PlusM(FPost(A, P, prog, gas, post, st), k)
    decreases gas, 2
  {
    hide FRun, FEnter;
    if post.Some? { MoreEnter(A, P, prog, gas, post.value, st, k); }
  }

  lemma {:induction false} MoreLoop(A: Arith, P: Program, prog: seq<FCell>, gas: nat, cond: nat, post: Option<nat>,
                                    body: nat,
                                    end: nat, st: MState, k: nat)
    requires !FLoop(A, P, prog, gas, cond, post, body, end, st).OutOfGas?
    ensures FLoop(A, P, prog, gas + k, cond, post, body, end, st)
            == PlusM(FLoop(A, P, prog, gas, cond, post, body, end, st), k)
    decreases gas, 3
  {
    hide FRun, FTest, FEnter, FPost, Resume, PoppedF, HM.Top;
    MoreTest(A, P, prog, gas, cond, st, k);
    var o := FTest(A, P, prog, gas, cond, st);
    if o.Go? { MoreResume(prog, end, PoppedF(o.st), o.gas, k); }
    if o.Go? && !A.isZero(HM.Top(o.st.m).v) {
      MoreEnter(A, P, prog, o.gas, body, PoppedF(o.st), k);
      var b := FEnter(A, P, prog, o.gas, body, PoppedF(o.st));
      if b.Go? && !b.st.returning {
        MorePost(A, P, prog, b.gas, post, b.st, k);
        var q := FPost(A, P, prog, b.gas, post, b.st);
        if q.Go? && q.gas < gas { MoreLoop(A, P, prog, q.gas, cond, post, body, end, q.st, k); }
      }
    }
  }

  lemma MoreResume(prog: seq<FCell>, cell: nat, st: MState, gas: nat, k: nat)
    ensures Resume(prog, cell, st, gas + k) == PlusM(Resume(prog, cell, st, gas), k)
  {
  }

  lemma {:induction false} MoreFor(A: Arith, P: Program, prog: seq<FCell>, gas: nat, save: nat, st: MState, k: nat)
    requires !FFor(A, P, prog, gas, save, st).OutOfGas?
    ensures FFor(A, P, prog, gas + k, save, st) == PlusM(FFor(A, P, prog, gas, save, st), k)
    decreases gas, 4
  {
    hide FRun, FLoop;
    MoreRun(A, P, prog, gas, SetPc(st, save + 4), k);
    var o := FRun(A, P, prog, gas, SetPc(st, save + 4));
    if o.Go? && o.st.m.stack != [] && Cell(prog, save).Addr? {
      MoreLoop(A, P, prog, o.gas, Cell(prog, save).k, Some(save + 1), save + 2, save + 3, PoppedF(o.st), k);
    }
  }

  lemma {:induction false} MoreCall(A: Arith, P: Program, prog: seq<FCell>, gas: nat, st: MState, k: nat)
    requires !FCall(A, P, prog, gas, st).OutOfGas?
    ensures FCall(A, P, prog, gas + k, st) == PlusM(FCall(A, P, prog, gas, st), k)
    decreases gas, 1
  {
    hide FRun;
    if Cell(prog, st.m.pc).SymRef? && Cell(prog, st.m.pc + 1).Int? {
      var f, n := Cell(prog, st.m.pc).x, Cell(prog, st.m.pc + 1).n;
      if f in P && |st.frames| < NFRAME - 1 {
        MoreRun(A, P, prog, gas, MState(st.m.(pc := P[f].at), st.frames + [Frame(f, st.m.pc + 2, |st.m.stack|, n)],
            st.returning), k);
      }
    }
  }

  // ---------------------------------------------------------------- whole lines

  /** What a line does, with the count left out. */
  datatype Ending = Ends(env: Env) | Breaks(err: FError, env: Env)

  /** Executing the line ends so, within some count. */
  ghost predicate MachineEnds(A: Arith, P: Program, prog: seq<FCell>, at: nat, env: Env, e: Ending) {
    exists gas: nat :: OfMachine(FRun(A, P, prog, gas, MState(HM.State(at, [], env), [], false))) == Some(e)
  }

  /** Evaluating it ends so, within some count. */
  ghost predicate EvaluationEnds(A: Arith, P: Program, c: FStmt, env: Env, e: Ending) {
    exists gas: nat :: OfEvaluation(Perform(A, P, c, Site(Main, 0, true), Data(env, []), 0, gas)) == Some(e)
  }

  function OfMachine(r: MResult): Option<Ending> {
    match r
    case Go(st, _) => Some(Ends(st.m.env))
    case MFail(err, env) => Some(Breaks(err, env))
    case OutOfGas => None
  }

  function OfEvaluation(r: SResult): Option<Ending> {
    match r
    case Norm(d, _) => Some(Ends(d.env))
    case Ret(_, env, _) => Some(Ends(env))
    case SFail(err, env) => Some(Breaks(err, env))
    case SOut => None
  }

  /** The machine ends a line one way at most, and in that way exactly when direct evaluation does. */
  lemma LineMeans(A: Arith, P: Program, prog: seq<FCell>, c: FStmt, at: nat, env: Env, e: Ending)
    requires WellFormed(P, prog) && StmtKindsOk(P, c, false) && FCodeAt(prog, at, FStmtCode(c, at) + [Stop])
    ensures MachineEnds(A, P, prog, at, env, e) <==> EvaluationEnds(A, P, c, env, e)
    ensures forall e' :: MachineEnds(A, P, prog, at, env, e) && MachineEnds(A, P, prog, at, env, e') ==> e == e'
    ensures forall e' :: EvaluationEnds(A, P, c, env, e) && EvaluationEnds(A, P, c, env, e') ==> e == e'
  {
    hide FRun, Perform, WellFormed, StmtKindsOk, FCodeAt, FStmtCode, MachineEnds, EvaluationEnds;
    LineEnds(A, P, prog, c, at, env, e);
    forall e' ensures MachineEnds(A, P, prog, at, env, e') <==> EvaluationEnds(A, P, c, env, e') {
      LineEnds(A, P, prog, c, at, env, e');
    }
    forall e' | MachineEnds(A, P, prog, at, env, e) && MachineEnds(A, P, prog, at, env, e') ensures e == e' {
      EndsOneWay(A, P, prog, at, env, e, e');
    }
  }

  lemma LineEnds(A: Arith, P: Program, prog: seq<FCell>, c: FStmt, at: nat, env: Env, e: Ending)
    requires WellFormed(P, prog) && StmtKindsOk(P, c, false) && FCodeAt(prog, at, FStmtCode(c, at) + [Stop])
    ensures MachineEnds(A, P, prog, at, env, e) <==> EvaluationEnds(A, P, c, env, e)
  {
    hide FRun, Perform, WellFormed, StmtKindsOk, FCodeAt, FStmtCode;
    forall gas: nat
      ensures OfMachine(FRun(A, P, prog, gas, MState(HM.State(at, [], env), [], false)))
           == OfEvaluation(Perform(A, P, c, Site(Main, 0, true), Data(env, []), 0, gas))
    {
      LineIsCorrect(A, P, prog, c, at, env, gas);
    }
  }

  lemma EndsOneWay(A: Arith, P: Program, prog: seq<FCell>, at: nat, env: Env, e: Ending, e': Ending)
    requires MachineEnds(A, P, prog, at, env, e) && MachineEnds(A, P, prog, at, env, e')
    ensures e == e'
  {
    hide FRun;
    var st := MState(HM.State(at, [], env), [], false);
    var g: nat :| OfMachine(FRun(A, P, prog, g, st)) == Some(e);
    var h: nat :| OfMachine(FRun(A, P, prog, h, st)) == Some(e');
    if g <= h { MoreRun(A, P, prog, g, st, h - g); } else { MoreRun(A, P, prog, h, st, g - h); }
  }
}
