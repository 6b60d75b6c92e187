/**
 A bare `return` that is itself a part of if, while or for: what the emitted code makes of it, and when
 hoc does what the language says all the same.
 */
module HocReturns {
  import opened HocLanguage
  import HM = HocMachine
  import opened HocFunctions
  import opened HocCalls
  import opened HocCallsCorrect
  import opened HocGas

  /** No bare `return` is itself a part; `{ return }` and `return e` are none. */
  predicate NoBareReturn(s: FStmt) {
    match s
    case KThen(s1, s2) => NoBareReturn(s1) && NoBareReturn(s2)
    case KWhile(_, s1) => !s1.KReturn? && NoBareReturn(s1)
    case KFor(_, _, _, s1) => !s1.KReturn? && NoBareReturn(s1)
    case KIf(_, s1) => !s1.KReturn? && NoBareReturn(s1)
    case KIfElse(_, s1, s2) => !s1.KReturn? && !s2.KReturn? && NoBareReturn(s1) && NoBareReturn(s2)
    case _ => true
  }

  ghost predicate NoBareReturns(P: Program) {
    forall f :: f in P ==> NoBareReturn(P[f].body)
  }

  // ---------------------------------------------------------------- the emitted cells

  /** The operands of the control instruction at k are addresses; only the else part may be missing. */
  predicate Patched(code: seq<FCell>, k: nat) {
    match Cell(code, k)
    case Op(WhileCode) => Cell(code, k + 1).Addr? && Cell(code, k + 2).Addr?
    case Op(IfCode) => Cell(code, k + 1).Addr? && !Cell(code, k + 2).SymRef? && Cell(code, k + 3).Addr?
    case Op(ForCode) =>
      Cell(code, k + 1).Addr? && Cell(code, k + 2).Addr? && Cell(code, k + 3).Addr? && Cell(code, k + 4).Addr?
    case _ => true
  }

  ghost predicate AllPatched(code: seq<FCell>) {
    forall k :: 0 <= k < |code| ==> Patched(code, k)
  }

  function Operands(i: FInstr): nat {
    match i case WhileCode => 2 case IfCode => 3 case ForCode => 4 case _ => 0
  }

  predicate Inside(code: seq<FCell>, k: nat) {
    Cell(code, k).Op? ==> k + Operands(Cell(code, k).i) < |code|
  }

  /** Control instructions have their operands inside the code. */
  ghost predicate Complete(code: seq<FCell>) {
    forall k :: 0 <= k < |code| ==> Inside(code, k)
  }

  lemma FrontAt(a: seq<FCell>, b: seq<FCell>, k: nat)
    requires k < |a| && Inside(a, k)
    ensures Inside(a + b, k) && (Patched(a + b, k) <==> Patched(a, k))
  {
    FrontCells(a, b, k);
  }

  lemma BackAt(a: seq<FCell>, b: seq<FCell>, k: nat)
    requires |a| <= k < |a + b| && Inside(b, k - |a|)
    ensures Inside(a + b, k) && (Patched(a + b, k) <==> Patched(b, k - |a|))
  {
    BackCells(a, b);
    assert |a| + (k - |a|) == k;
  }

  lemma PatchedJoins(a: seq<FCell>, b: seq<FCell>)
    requires Complete(a) && Complete(b)
    ensures Complete(a + b) && (AllPatched(a + b) <==> AllPatched(a) && AllPatched(b))
  {
    hide Inside, Patched;
    forall k | 0 <= k < |a + b|
      ensures Inside(a + b, k)
      ensures Patched(a + b, k) <==> if k < |a| then Patched(a, k) else Patched(b, k - |a|)
    {
      if k < |a| { FrontAt(a, b, k); } else { BackAt(a, b, k); }
    }
    forall k | 0 <= k < |b| ensures Patched(b, k) <==> Patched(a + b, |a| + k) {
      BackAt(a, b, |a| + k);
    }
  }

  lemma FrontCells(a: seq<FCell>, b: seq<FCell>, k: nat)
    ensures forall j :: k <= j < |a| ==> Cell(a + b, j) == Cell(a, j)
  {
  }

  lemma BackCells(a: seq<FCell>, b: seq<FCell>)
    ensures forall j :: 0 <= j ==> Cell(a + b, |a| + j) == Cell(b, j)
  {
  }

  /** Code without a control instruction. */
  ghost predicate Straight(code: seq<FCell>) {
    forall k :: 0 <= k < |code| ==> Cell(code, k).Op? ==> Operands(Cell(code, k).i) == 0
  }

  lemma StraightIsPatched(code: seq<FCell>)
    requires Straight(code)
    ensures Complete(code) && AllPatched(code)
  {
  }

  lemma StraightJoins(a: seq<FCell>, b: seq<FCell>)
    requires Straight(a) && Straight(b)
    ensures Straight(a + b)
  {
    forall k | 0 <= k < |a + b| && Cell(a + b, k).Op? ensures Operands(Cell(a + b, k).i) == 0 {
      assert Cell(a + b, k) == if k < |a| then Cell(a, k) else Cell(b, k - |a|);
    }
  }

  lemma {:induction false} ExprIsStraight(e: FExpr)
    ensures Straight(FExprCode(e))
  {
    match e
    case KAssign(x, e1) =>
      ExprIsStraight(e1);
      StraightJoins(FExprCode(e1), [Op(VarPush), SymRef(x), Op(AssignVar)]);
    case KArgAssign(k, e1) =>
      ExprIsStraight(e1);
      StraightJoins(FExprCode(e1), [Op(ArgAssignI), Int(k)]);
    case KNeg(e1) =>
      ExprIsStraight(e1);
      StraightJoins(FExprCode(e1), [Op(NegI)]);
    case KBin(op, l, r) =>
      ExprIsStraight(l);
      ExprIsStraight(r);
      StraightJoins(FExprCode(l), FExprCode(r));
      StraightJoins(FExprCode(l) + FExprCode(r), [Op(BinI(op))]);
    case KCall(f, args) =>
      ArgsAreStraight(args);
      StraightJoins(ArgsCode(args), [Op(CallI), SymRef(f), Int(Count(args))]);
    case _ =>
  }

  lemma {:induction false} ArgsAreStraight(args: Args)
    ensures Straight(ArgsCode(args))
  {
    match args
    case NoArgs =>
    case MoreArgs(e, rest) =>
      ExprIsStraight(e);
      ArgsAreStraight(rest);
      StraightJoins(FExprCode(e), ArgsCode(rest));
  }

  lemma ClosedIsStraight(e: FExpr)
    ensures Straight(Closed(e))
  {
    ExprIsStraight(e);
    StraightJoins(FExprCode(e), [Stop]);
  }

  /** A control instruction with its operands, then straight code, then the parts. */
  lemma HeadAndParts(head: seq<FCell>, mid: seq<FCell>, rest: seq<FCell>)
    requires Complete(head) && Straight(mid) && Complete(rest)
    ensures Complete(head + mid + rest) && (AllPatched(head + mid + rest) <==> AllPatched(head) && AllPatched(rest))
  {
    StraightIsPatched(mid);
    PatchedJoins(head, mid);
    PatchedJoins(head + mid, rest);
  }

  /** A part with the STOP after it. */
  lemma {:induction false} PartIsPatched(s: FStmt, p: nat)
    ensures Complete(FStmtCode(s, p) + [Stop]) && (AllPatched(FStmtCode(s, p) + [Stop]) <==> NoBareReturn(s))
    decreases s, 2
  {
    CodeIsPatched(s, p);
    StraightIsPatched([Stop]);
    PatchedJoins(FStmtCode(s, p), [Stop]);
  }

  /** The emitted code has an address in every place that wants one exactly when no bare `return` is itself a part. */
  lemma {:induction false} CodeIsPatched(s: FStmt, p: nat)
    ensures Complete(FStmtCode(s, p)) && (AllPatched(FStmtCode(s, p)) <==> NoBareReturn(s))
    decreases s, 1
  {
    hide FExprCode, ArgsCode, AllPatched, Complete, Straight;
    match s
    case KThen(s1, s2) =>
      CodeIsPatched(s1, p);
      CodeIsPatched(s2, p + FSize(s1));
      PatchedJoins(FStmtCode(s1, p), FStmtCode(s2, p + FSize(s1)));
    case KWhile(c, s1) => WhileIsPatched(s, p);
    case KIf(c, s1) => IfIsPatched(s, p);
    case KIfElse(c, s1, s2) => IfIsPatched(s, p);
    case KFor(i, c, post, s1) => ForIsPatched(s, p);
    case _ =>
      PlainIsStraight(s, p);
      StraightIsPatched(FStmtCode(s, p));
  }

  lemma PlainIsStraight(s: FStmt, p: nat)
    requires !(s.KThen? || s.KWhile? || s.KIf? || s.KIfElse? || s.KFor?)
    ensures Straight(FStmtCode(s, p))
  {
    match s
    case KEval(e) =>
      ExprIsStraight(e);
      StraightJoins(FExprCode(e), [Op(XPop)]);
    case KPrint(e) =>
      ExprIsStraight(e);
      StraightJoins(FExprCode(e), [Op(PrExpr)]);
    case KReturnValue(e) =>
      ExprIsStraight(e);
      StraightJoins(FExprCode(e), [Op(FuncRet)]);
    case KProcedure(f, args) =>
      ArgsAreStraight(args);
      StraightJoins(ArgsCode(args), [Op(CallI), SymRef(f), Int(Count(args))]);
    case _ =>
  }

  lemma WhileHead(a: FCell, b: nat)
    requires a.Addr? || a.SymRef?
    ensures var head := [Op(WhileCode), a, Addr(b)]; Complete(head) && (AllPatched(head) <==> a.Addr?)
  {
    var head := [Op(WhileCode), a, Addr(b)];
    assert Patched(head, 0) <==> a.Addr?;
  }

  lemma IfHead(a: FCell, b: FCell, e: nat)
    requires (a.Addr? || a.SymRef?) && (b.Addr? || b.SymRef? || b.Stop?)
    ensures var head := [Op(IfCode), a, b, Addr(e)];
            Complete(head) && (AllPatched(head) <==> a.Addr? && !b.SymRef?)
  {
    var head := [Op(IfCode), a, b, Addr(e)];
    assert Patched(head, 0) <==> a.Addr? && !b.SymRef?;
  }

  lemma ForHead(c: nat, n: nat, a: FCell, e: nat)
    requires a.Addr? || a.SymRef?
    ensures var head := [Op(ForCode), Addr(c), Addr(n), a, Addr(e)]; Complete(head) && (AllPatched(head) <==> a.Addr?)
  {
    var head := [Op(ForCode), Addr(c), Addr(n), a, Addr(e)];
    assert Patched(head, 0) <==> a.Addr?;
  }

  lemma {:induction false} WhileIsPatched(s: FStmt, p: nat)
    requires s.KWhile?
    ensures Complete(FStmtCode(s, p)) && (AllPatched(FStmtCode(s, p)) <==> NoBareReturn(s))
    decreases s, 0
  {
    hide AllPatched, Complete, Straight, FExprCode, Closed;
    var body := p + 3 + |Closed(s.c)|;
    WhileHead(Hole(s.s, body), p + FSize(s));
    ClosedIsStraight(s.c);
    PartIsPatched(s.s, body);
    HeadAndParts([Op(WhileCode), Hole(s.s, body), Addr(p + FSize(s))], Closed(s.c), FStmtCode(s.s, body) + [Stop]);
  }

  lemma IfShape(s: FStmt, p: nat)
    requires s.KIf? || s.KIfElse?
    ensures var thn, els := ThenAt(s, p), ElseAt(s, p);
            var head := [Op(IfCode), Hole(s.s, thn), if s.KIf? then Stop else Hole(s.t, els), Addr(p + FSize(s))];
            var front := head + Closed(s.c) + (FStmtCode(s.s, thn) + [Stop]);
            FStmtCode(s, p) == if s.KIf? then front else front + (FStmtCode(s.t, els) + [Stop])
  {
    hide FExprCode, Closed;
  }

  lemma {:induction false} IfIsPatched(s: FStmt, p: nat)
    requires s.KIf? || s.KIfElse?
    ensures Complete(FStmtCode(s, p)) && (AllPatched(FStmtCode(s, p)) <==> NoBareReturn(s))
    decreases s, 0
  {
    hide AllPatched, Complete, Straight, FExprCode, Closed, FStmtCode, FSize, ThenAt, ElseAt;
    IfShape(s, p);
    var thn, els := ThenAt(s, p), ElseAt(s, p);
    var other := if s.KIf? then Stop else Hole(s.t, els);
    var head := [Op(IfCode), Hole(s.s, thn), other, Addr(p + FSize(s))];
    IfHead(Hole(s.s, thn), other, p + FSize(s));
    ClosedIsStraight(s.c);
    PartIsPatched(s.s, thn);
    HeadAndParts(head, Closed(s.c), FStmtCode(s.s, thn) + [Stop]);
    if s.KIfElse? {
      PartIsPatched(s.t, els);
      PatchedJoins(head + Closed(s.c) + (FStmtCode(s.s, thn) + [Stop]), FStmtCode(s.t, els) + [Stop]);
    }
  }

  lemma {:induction false} ForIsPatched(s: FStmt, p: nat)
    requires s.KFor?
    ensures Complete(FStmtCode(s, p)) && (AllPatched(FStmtCode(s, p)) <==> NoBareReturn(s))
    decreases s, 0
  {
    hide AllPatched, Complete, Straight, FExprCode, Closed;
    var cond := p + 5 + |Closed(s.init)|;
    var next := cond + |Closed(s.c)|;
    var body := next + |Closed(s.post)|;
    var head := [Op(ForCode), Addr(cond), Addr(next), Hole(s.s, body), Addr(p + FSize(s))];
    ForHead(cond, next, Hole(s.s, body), p + FSize(s));
    ClosedIsStraight(s.init);
    ClosedIsStraight(s.c);
    ClosedIsStraight(s.post);
    StraightJoins(Closed(s.init), Closed(s.c));
    StraightJoins(Closed(s.init) + Closed(s.c), Closed(s.post));
    PartIsPatched(s.s, body);
    HeadAndParts(head, Closed(s.init) + Closed(s.c) + Closed(s.post), FStmtCode(s.s, body) + [Stop]);
    assert FStmtCode(s, p)
        == head + (Closed(s.init) + Closed(s.c) + Closed(s.post)) + (FStmtCode(s.s, body) + [Stop]);
  }

  // ---------------------------------------------------------------- the language and the emitted code

  /** The same surroundings, with a bare `return` meaning what the language says. */
  function Meant(s: Site): Site { s.(emitted := false) }

  /** x is y, or the failure of a cell that is no address; never the latter where the code is clean. */
  ghost predicate SameE(x: EResult, y: EResult, clean: bool) {
    x == y || (!clean && x.EFail? && x.err == NoAddress)
  }

  ghost predicate SameA(x: AResult, y: AResult, clean: bool) {
    x == y || (!clean && x.AFail? && x.err == NoAddress)
  }

  ghost predicate SameS(x: SResult, y: SResult, clean: bool) {
    x == y || (!clean && x.SFail? && x.err == NoAddress)
  }

  lemma {:induction false} AgreeE(A: Arith, P: Program, e: FExpr, s: Site, data: Data, h: nat, gas: nat, clean: bool)
    requires clean ==> NoBareReturns(P)
    ensures SameE(Evaluate(A, P, e, s, data, h, gas), Evaluate(A, P, e, Meant(s), data, h, gas), clean)
    decreases gas, e, 1
  {
    hide EvalArgs, Invoke, Perform, Turns, Lookup, Store, Apply, NoBareReturns;
    match e
    case KAssign(x, e1) => AgreeOne(A, P, e, e1, s, data, h, gas, clean);
    case KArgAssign(k, e1) => AgreeOne(A, P, e, e1, s, data, h, gas, clean);
    case KNeg(e1) => AgreeOne(A, P, e, e1, s, data, h, gas, clean);
    case KBin(op, l, r) => AgreeBin(A, P, e, s, data, h, gas, clean);
    case KCall(f, args) => AgreeCall(A, P, e, s, data, h, gas, clean);
    case _ =>
  }

  lemma {:induction false} AgreeOne(A: Arith, P: Program, e: FExpr, e1: FExpr, s: Site, data: Data, h: nat, gas: nat,
                                    clean: bool)
    requires (e.KAssign? || e.KArgAssign? || e.KNeg?) && e1 == e.e && (clean ==> NoBareReturns(P))
    ensures SameE(Evaluate(A, P, e, s, data, h, gas), Evaluate(A, P, e, Meant(s), data, h, gas), clean)
    decreases gas, e, 0
  {
    hide EvalArgs, Invoke, Perform, Turns, Lookup, Store, Apply, OfEval, OfCalc, NoBareReturns;
    AgreeE(A, P, e1, s, data, h, gas, clean);
  }

  lemma {:induction false} AgreeBin(A: Arith, P: Program, e: FExpr, s: Site, data: Data, h: nat, gas: nat, clean: bool)
    requires e.KBin? && (clean ==> NoBareReturns(P))
    ensures SameE(Evaluate(A, P, e, s, data, h, gas), Evaluate(A, P, e, Meant(s), data, h, gas), clean)
    decreases gas, e, 0
  {
    hide EvalArgs, Invoke, Perform, Turns, Lookup, Store, Apply, OfEval, OfCalc, NoBareReturns;
    AgreeE(A, P, e.l, s, data, h, gas, clean);
    var o := Evaluate(A, P, e.l, s, data, h, gas);
    if o.Val? { AgreeE(A, P, e.r, s, o.data, h + 1, o.gas, clean); }
  }

  lemma {:induction false} AgreeCall(A: Arith, P: Program, e: FExpr, s: Site, data: Data, h: nat, gas: nat, clean: bool)
    requires e.KCall? && (clean ==> NoBareReturns(P))
    ensures SameE(Evaluate(A, P, e, s, data, h, gas), Evaluate(A, P, e, Meant(s), data, h, gas), clean)
    decreases gas, e, 0
  {
    hide EvalArgs, Invoke, Perform, Turns, Lookup, Store, Apply, OfEval, OfCalc, NoBareReturns;
    AgreeI(A, P, e.f, e.args, s, data, h, gas, clean);
    AgreeA(A, P, e.args, s, data, h, gas, clean);
  }

  lemma {:induction false} AgreeA(A: Arith, P: Program, args: Args, s: Site, data: Data, h: nat, gas: nat, clean: bool)
    requires clean ==> NoBareReturns(P)
    ensures SameA(EvalArgs(A, P, args, s, data, h, gas), EvalArgs(A, P, args, Meant(s), data, h, gas), clean)
    decreases gas, args, 0
  {
    hide Evaluate, NoBareReturns;
    match args
    case NoArgs =>
    case MoreArgs(e, rest) =>
      AgreeE(A, P, e, s, data, h, gas, clean);
      var o := Evaluate(A, P, e, s, data, h, gas);
      if o.Val? { AgreeA(A, P, rest, s, o.data, h + 1, o.gas, clean); }
  }

  lemma {:induction false} AgreeI(A: Arith, P: Program, f: Name, args: Args, s: Site, data: Data, h: nat, gas: nat,
                                  clean: bool)
    requires clean ==> NoBareReturns(P)
    ensures SameS(Invoke(A, P, f, args, s, data, h, gas), Invoke(A, P, f, args, Meant(s), data, h, gas), clean)
    decreases gas, args, 1
  {
    hide EvalArgs, Perform;
    AgreeA(A, P, args, s, data, h, gas, clean);
    var o := EvalArgs(A, P, args, s, data, h, gas);
    if o.Vals? && o.gas > 0 && f in P {
      var inner := Site(P[f].kind, s.depth + 1, s.emitted);
      AgreeS(A, P, P[f].body, inner, Data(o.data.env, o.vs), h + |o.vs|, o.gas - 1, clean);
    }
  }

  lemma {:induction false} AgreeS(A: Arith, P: Program, st: FStmt, s: Site, data: Data, h: nat, gas: nat, clean: bool)
    requires clean ==> NoBareReturns(P) && NoBareReturn(st)
    ensures SameS(Perform(A, P, st, s, data, h, gas), Perform(A, P, st, Meant(s), data, h, gas), clean)
    decreases gas, st, 1
  {
    hide *;
    match st
    case KEmpty => AgreeEmpty(A, P, s, data, h, gas, clean);
    case KReturn => AgreeReturn(A, P, s, data, h, gas, clean);
    case KThen(_, _) => AgreeThen(A, P, st, s, data, h, gas, clean);
    case KEval(_) => AgreeValue(A, P, st, s, data, h, gas, clean);
    case KPrint(_) => AgreeValue(A, P, st, s, data, h, gas, clean);
    case KReturnValue(_) => AgreeValue(A, P, st, s, data, h, gas, clean);
    case KProcedure(_, _) => AgreeProcedure(A, P, st, s, data, h, gas, clean);
    case KIf(_, _) => AgreeIf(A, P, st, s, data, h, gas, clean);
    case KIfElse(_, _, _) => AgreeIf(A, P, st, s, data, h, gas, clean);
    case KWhile(_, _) => AgreeLoop(A, P, st, s, data, h, gas, clean);
    case KFor(_, _, _, _) => AgreeLoop(A, P, st, s, data, h, gas, clean);
  }

  lemma AgreeEmpty(A: Arith, P: Program, s: Site, data: Data, h: nat, gas: nat, clean: bool)
    ensures SameS(Perform(A, P, KEmpty, s, data, h, gas), Perform(A, P, KEmpty, Meant(s), data, h, gas), clean)
  {
  }

  lemma AgreeReturn(A: Arith, P: Program, s: Site, data: Data, h: nat, gas: nat, clean: bool)
    ensures SameS(Perform(A, P, KReturn, s, data, h, gas), Perform(A, P, KReturn, Meant(s), data, h, gas), clean)
  {
  }

  lemma {:induction false} AgreeThen(A: Arith, P: Program, st: FStmt, s: Site, data: Data, h: nat, gas: nat,
                                     clean: bool)
    requires st.KThen? && (clean ==> NoBareReturns(P) && NoBareReturn(st))
    ensures SameS(Perform(A, P, st, s, data, h, gas), Perform(A, P, st, Meant(s), data, h, gas), clean)
    decreases gas, st, 0
  {
    hide Evaluate, EvalArgs, Invoke, Turns, PartOf, Leave, NoBareReturns;
    AgreeS(A, P, st.s, s, data, h, gas, clean);
    var o := Perform(A, P, st.s, s, data, h, gas);
    if o.Norm? { AgreeS(A, P, st.t, s, o.data, h, o.gas, clean); }
  }

  lemma {:induction false} AgreeValue(A: Arith, P: Program, st: FStmt, s: Site, data: Data, h: nat, gas: nat,
                                      clean: bool)
    requires (st.KEval? || st.KPrint? || st.KReturnValue?) && (clean ==> NoBareReturns(P))
    ensures SameS(Perform(A, P, st, s, data, h, gas), Perform(A, P, st, Meant(s), data, h, gas), clean)
    decreases gas, st, 0
  {
    hide Evaluate, EvalArgs, Invoke, Turns, PartOf, Leave, NoBareReturns;
    AgreeE(A, P, st.e, s, data, h, gas, clean);
  }

  lemma {:induction false} AgreeProcedure(A: Arith, P: Program, st: FStmt, s: Site, data: Data, h: nat, gas: nat,
                                          clean: bool)
    requires st.KProcedure? && (clean ==> NoBareReturns(P))
    ensures SameS(Perform(A, P, st, s, data, h, gas), Perform(A, P, st, Meant(s), data, h, gas), clean)
    decreases gas, st, 0
  {
    hide Evaluate, EvalArgs, Invoke, Turns, PartOf, Leave, NoBareReturns;
    AgreeI(A, P, st.f, st.args, s, data, h, gas, clean);
    AgreeA(A, P, st.args, s, data, h, gas, clean);
  }

  lemma {:induction false} AgreeIf(A: Arith, P: Program, st: FStmt, s: Site, data: Data, h: nat, gas: nat, clean: bool)
    requires (st.KIf? || st.KIfElse?) && (clean ==> NoBareReturns(P) && NoBareReturn(st))
    ensures SameS(Perform(A, P, st, s, data, h, gas), Perform(A, P, st, Meant(s), data, h, gas), clean)
    decreases gas, st, 0
  {
    hide Evaluate, EvalArgs, Invoke, Turns, PartOf, Leave, NoBareReturns;
    if gas > 0 {
      AgreeE(A, P, st.c, s, data, h, gas - 1, clean);
      var o := Evaluate(A, P, st.c, s, data, h, gas - 1);
      if o.Val? && !(A.isZero(o.v) && st.KIf?) {
        AgreePart(A, P, if A.isZero(o.v) then st.t else st.s, s, o.data, h, o.gas, clean);
      }
    }
  }

  lemma {:induction false} AgreeLoop(A: Arith, P: Program, st: FStmt, s: Site, data: Data, h: nat, gas: nat,
                                     clean: bool)
    requires (st.KWhile? || st.KFor?) && (clean ==> NoBareReturns(P) && NoBareReturn(st))
    ensures SameS(Perform(A, P, st, s, data, h, gas), Perform(A, P, st, Meant(s), data, h, gas), clean)
    decreases gas, st, 0
  {
    hide Evaluate, EvalArgs, Invoke, Turns, PartOf, Leave, NoBareReturns;
    if gas > 0 && st.KWhile? { AgreeT(A, P, st.c, None, st.s, s, data, h, gas - 1, clean); }
    if gas > 0 && st.KFor? {
      AgreeE(A, P, st.init, s, data, h, gas - 1, clean);
      var o := Evaluate(A, P, st.init, s, data, h, gas - 1);
      if o.Val? { AgreeT(A, P, st.c, Some(st.post), st.s, s, o.data, h, o.gas, clean); }
    }
  }

  lemma {:induction false} AgreePart(A: Arith, P: Program, st: FStmt, s: Site, data: Data, h: nat, gas: nat,
                                     clean: bool)
    requires clean ==> NoBareReturns(P) && NoBareReturn(st) && !st.KReturn?
    ensures SameS(PartOf(A, P, st, s, data, h, gas), PartOf(A, P, st, Meant(s), data, h, gas), clean)
    decreases gas, st, 2
  {
    hide Perform, NoBareReturns;
    AgreeS(A, P, st, s, data, h, gas, clean);
  }

  lemma {:induction false} AgreeT(A: Arith, P: Program, c: FExpr, post: Option<FExpr>, body: FStmt, s: Site, data: Data,
                                  h: nat, gas: nat, clean: bool)
    requires clean ==> NoBareReturns(P) && NoBareReturn(body) && !body.KReturn?
    ensures SameS(Turns(A, P, c, post, body, s, data, h, gas), Turns(A, P, c, post, body, Meant(s), data, h, gas),
            clean)
    decreases gas, c, 2
  {
    hide Evaluate, PartOf, Perform, PostOf, Turns, NoBareReturns, NoBareReturn;
    TurnsUnfold(A, P, c, post, body, s, data, h, gas);
    TurnsUnfold(A, P, c, post, body, Meant(s), data, h, gas);
    AgreeE(A, P, c, s, data, h, gas, clean);
    var o := Evaluate(A, P, c, s, data, h, gas);
    if o.Val? && !A.isZero(o.v) {
      AgreePart(A, P, body, s, o.data, h, o.gas, clean);
      var b := PartOf(A, P, body, s, o.data, h, o.gas);
      if b.Norm? {
        AgreePost(A, P, post, s, b.data, h, b.gas, clean);
        var q := PostOf(A, P, post, s, b.data, h, b.gas);
        if q.Norm? { AgreeT(A, P, c, post, body, s, q.data, h, q.gas, clean); }
      }
    }
  }

  lemma {:induction false} AgreePost(A: Arith, P: Program, post: Option<FExpr>, s: Site, data: Data, h: nat, gas: nat,
                                     clean: bool)
    requires clean ==> NoBareReturns(P)
    ensures SameS(PostOf(A, P, post, s, data, h, gas), PostOf(A, P, post, Meant(s), data, h, gas), clean)
    decreases gas, post, 2
  {
    hide Evaluate, NoBareReturns;
    if post.Some? { AgreeE(A, P, post.value, s, data, h, gas, clean); }
  }

  // ---------------------------------------------------------------- the language never jumps

  lemma {:induction false} MeantE(A: Arith, P: Program, e: FExpr, s: Site, data: Data, h: nat, gas: nat)
    requires !s.emitted
    ensures var r := Evaluate(A, P, e, s, data, h, gas); r.EFail? ==> r.err != NoAddress
    decreases gas, e, 0
  {
    hide EvalArgs, Invoke, Perform, Turns, Lookup, Store, Apply;
    match e
    case KAssign(x, e1) => MeantE(A, P, e1, s, data, h, gas);
    case KArgAssign(k, e1) => MeantE(A, P, e1, s, data, h, gas);
    case KNeg(e1) => MeantE(A, P, e1, s, data, h, gas);
    case KBin(op, l, r) =>
      MeantE(A, P, l, s, data, h, gas);
      var o := Evaluate(A, P, l, s, data, h, gas);
      if o.Val? { MeantE(A, P, r, s, o.data, h + 1, o.gas); }
    case KCall(f, args) => MeantI(A, P, f, args, s, data, h, gas);
    case _ =>
  }

  lemma {:induction false} MeantA(A: Arith, P: Program, args: Args, s: Site, data: Data, h: nat, gas: nat)
    requires !s.emitted
    ensures var r := EvalArgs(A, P, args, s, data, h, gas); r.AFail? ==> r.err != NoAddress
    decreases gas, args, 0
  {
    hide Evaluate;
    match args
    case NoArgs =>
    case MoreArgs(e, rest) =>
      MeantE(A, P, e, s, data, h, gas);
      var o := Evaluate(A, P, e, s, data, h, gas);
      if o.Val? { MeantA(A, P, rest, s, o.data, h + 1, o.gas); }
  }

  lemma {:induction false} MeantI(A: Arith, P: Program, f: Name, args: Args, s: Site, data: Data, h: nat, gas: nat)
    requires !s.emitted
    ensures var r := Invoke(A, P, f, args, s, data, h, gas); r.SFail? ==> r.err != NoAddress
    decreases gas, args, 1
  {
    hide EvalArgs, Perform;
    MeantA(A, P, args, s, data, h, gas);
    var o := EvalArgs(A, P, args, s, data, h, gas);
    if o.Vals? && o.gas > 0 && f in P {
      var inner := Site(P[f].kind, s.depth + 1, s.emitted);
      MeantS(A, P, P[f].body, inner, Data(o.data.env, o.vs), h + |o.vs|, o.gas - 1);
    }
  }

  lemma {:induction false} MeantS(A: Arith, P: Program, st: FStmt, s: Site, data: Data, h: nat, gas: nat)
    requires !s.emitted
    ensures var r := Perform(A, P, st, s, data, h, gas); r.SFail? ==> r.err != NoAddress
    decreases gas, st, 0
  {
    hide Evaluate, EvalArgs, Invoke, Turns;
    match st
    case KThen(s1, s2) =>
      MeantS(A, P, s1, s, data, h, gas);
      var o := Perform(A, P, s1, s, data, h, gas);
      if o.Norm? { MeantS(A, P, s2, s, o.data, h, o.gas); }
    case KEval(e) => MeantE(A, P, e, s, data, h, gas);
    case KPrint(e) => MeantE(A, P, e, s, data, h, gas);
    case KReturnValue(e) => MeantE(A, P, e, s, data, h, gas);
    case KProcedure(f, args) => MeantI(A, P, f, args, s, data, h, gas);
    case KIf(c, s1) =>
      if gas > 0 {
        MeantE(A, P, c, s, data, h, gas - 1);
        var o := Evaluate(A, P, c, s, data, h, gas - 1);
        if o.Val? { MeantS(A, P, s1, s, o.data, h, o.gas); }
      }
    case KIfElse(c, s1, s2) =>
      if gas > 0 {
        MeantE(A, P, c, s, data, h, gas - 1);
        var o := Evaluate(A, P, c, s, data, h, gas - 1);
        if o.Val? { MeantS(A, P, if A.isZero(o.v) then s2 else s1, s, o.data, h, o.gas); }
      }
    case KWhile(c, s1) =>
      if gas > 0 { MeantT(A, P, c, None, s1, s, data, h, gas - 1); }
    case KFor(i, c, p, s1) =>
      if gas > 0 {
        MeantE(A, P, i, s, data, h, gas - 1);
        var o := Evaluate(A, P, i, s, data, h, gas - 1);
        if o.Val? { MeantT(A, P, c, Some(p), s1, s, o.data, h, o.gas); }
      }
    case _ =>
  }

  lemma {:induction false} MeantT(A: Arith, P: Program, c: FExpr, post: Option<FExpr>, body: FStmt, s: Site, data: Data,
                                  h: nat, gas: nat)
    requires !s.emitted
    ensures var r := Turns(A, P, c, post, body, s, data, h, gas); r.SFail? ==> r.err != NoAddress
    decreases gas, c, 1
  {
    hide Evaluate, Perform, Turns;
    TurnsUnfold(A, P, c, post, body, s, data, h, gas);
    MeantE(A, P, c, s, data, h, gas);
    var o := Evaluate(A, P, c, s, data, h, gas);
    if o.Val? && !A.isZero(o.v) {
      MeantS(A, P, body, s, o.data, h, o.gas);
      var b := PartOf(A, P, body, s, o.data, h, o.gas);
      if b.Norm? {
        if post.Some? { MeantE(A, P, post.value, s, b.data, h, b.gas); }
        var q := PostOf(A, P, post, s, b.data, h, b.gas);
        if q.Norm? { MeantT(A, P, c, post, body, s, q.data, h, q.gas); }
      }
    }
  }

  // ---------------------------------------------------------------- when hoc does what the language says

  /** What the language says a line does. */
  ghost function LineMeaning(A: Arith, P: Program, c: FStmt, env: Env, gas: nat): SResult {
    Perform(A, P, c, Site(Main, 0, false), Data(env, []), 0, gas)
  }

  ghost function LineRun(A: Arith, P: Program, prog: seq<FCell>, at: nat, env: Env, gas: nat): MResult {
    FRun(A, P, prog, gas, MState(HM.State(at, [], env), [], false))
  }

  /** The machine ends the line at `end` as the language says. */
  ghost predicate Right(o: MResult, r: SResult, end: nat) {
    match r
    case Norm(d, g) => o == Go(MState(HM.State(end, [], d.env), [], false), g)
    case SFail(err, env) => o == MFail(err, env)
    case SOut => o == OutOfGas
    case Ret(_, _, _) => false
  }

  /** The machine has met a cell that should hold an address and does not. */
  ghost predicate Wild(o: MResult) { o.MFail? && o.err == NoAddress }

  /**
   * Whatever is defined and whatever the line: execute does what the language says exactly when it
   * does not run into the hole of a bare `return`, and it never does so in a program without one.
   */
  lemma LineIsRightIff(A: Arith, P: Program, prog: seq<FCell>, c: FStmt, at: nat, env: Env, gas: nat)
    requires WellFormed(P, prog) && StmtKindsOk(P, c, false) && FCodeAt(prog, at, FStmtCode(c, at) + [Stop])
    ensures var o := LineRun(A, P, prog, at, env, gas);
            && (Right(o, LineMeaning(A, P, c, env, gas), at + FSize(c)) <==> !Wild(o))
            && (NoBareReturns(P) ==> !Wild(o))
  {
    hide FRun, Perform, FCodeAt, FStmtCode, FSize, NoBareReturns, NoBareReturn;
    hide WellFormed, StmtKindsOk;
    LineIsCorrect(A, P, prog, c, at, env, gas);
    LineHasNone(P, c);
    var s, data := Site(Main, 0, true), Data(env, []);
    AgreeS(A, P, c, s, data, 0, gas, false);
    if NoBareReturns(P) { AgreeS(A, P, c, s, data, 0, gas, true); }
    MeantS(A, P, c, Meant(s), data, 0, gas);
    ReturnsByKind(A, P, c, Meant(s), data, 0, gas);
  }

  /** Outside definitions there is no `return` at all. */
  lemma {:induction false} LineHasNone(P: Program, c: FStmt)
    requires StmtKindsOk(P, c, false)
    ensures NoBareReturn(c) && !c.KReturn?
  {
    match c
    case KThen(s1, s2) => LineHasNone(P, s1); LineHasNone(P, s2);
    case KWhile(_, s1) => LineHasNone(P, s1);
    case KFor(_, _, _, s1) => LineHasNone(P, s1);
    case KIf(_, s1) => LineHasNone(P, s1);
    case KIfElse(_, s1, s2) => LineHasNone(P, s1); LineHasNone(P, s2);
    case _ =>
  }

  /** Evaluating the line ends so in the language, within some count. */
  ghost predicate LanguageEnds(A: Arith, P: Program, c: FStmt, env: Env, e: Ending) {
    exists gas: nat :: OfEvaluation(LineMeaning(A, P, c, env, gas)) == Some(e)
  }

  /** With the count left out, for programs without a bare `return` as a part. */
  lemma LineMeansWhatItSays(A: Arith, P: Program, prog: seq<FCell>, c: FStmt, at: nat, env: Env, e: Ending)
    requires WellFormed(P, prog) && StmtKindsOk(P, c, false) && FCodeAt(prog, at, FStmtCode(c, at) + [Stop])
    requires NoBareReturns(P)
    ensures MachineEnds(A, P, prog, at, env, e) <==> LanguageEnds(A, P, c, env, e)
  {
    hide FRun, Perform, WellFormed, StmtKindsOk, FCodeAt, FStmtCode, FSize, NoBareReturns;
    forall gas: nat
      ensures OfMachine(FRun(A, P, prog, gas, MState(HM.State(at, [], env), [], false)))
           == OfEvaluation(LineMeaning(A, P, c, env, gas))
    {
      LineIsRightIff(A, P, prog, c, at, env, gas);
    }
  }

  // ---------------------------------------------------------------- proc p() { if ($1) return }

  function ShortBody(): FStmt { KThen(KEmpty, KIf(KArg(1), KReturn)) }

  function ShortProgram(): Program { map["p" := Def(Proc, ShortBody(), 0)] }

  /** p(v) */
  function ShortLine(v: Num): FStmt { KProcedure("p", MoreArgs(KConst(v), NoArgs)) }

  function ShortCode(v: Num): seq<FCell> {
    FStmtCode(ShortBody(), 0) + [Op(ProcRet)] + (FStmtCode(ShortLine(v), 10) + [Stop])
  }

  lemma ShortIsLoaded(v: Num)
    ensures FSize(ShortBody()) == 9 && |ShortCode(v)| == 16
    ensures WellFormed(ShortProgram(), ShortCode(v)) && StmtKindsOk(ShortProgram(), ShortLine(v), false)
    ensures FCodeAt(ShortCode(v), 10, FStmtCode(ShortLine(v), 10) + [Stop])
  {
    var line := FStmtCode(ShortLine(v), 10) + [Stop];
    var body := FStmtCode(ShortBody(), 0) + [Op(ProcRet)];
    assert |FExprCode(KArg(1))| == 2 && FSize(KIf(KArg(1), KReturn)) == 9;
    assert |ArgsCode(MoreArgs(KConst(v), NoArgs))| == 2 by { assert ArgsCode(NoArgs) == []; }
    assert ShortCode(v) == body + line;
  }

  /**
   * With any argument that is not zero: the language returns from p and goes on, and hoc runs into the
   * symbol of the keyword.
   */
  lemma BareReturnBreaks(A: Arith, v: Num, env: Env, gas: nat)
    requires !A.isZero(v) && gas >= 5
    ensures var P, prog, c := ShortProgram(), ShortCode(v), ShortLine(v);
            && WellFormed(P, prog) && StmtKindsOk(P, c, false) && FCodeAt(prog, 10, FStmtCode(c, 10) + [Stop])
            && LineMeaning(A, P, c, env, gas) == Norm(Data(env, []), gas - 5)
            && LineRun(A, P, prog, 10, env, gas) == MFail(NoAddress, env)
  {
    ShortIsLoaded(v);
    hide WellFormed, StmtKindsOk, FCodeAt, FStmtCode, ShortCode;
    LineIsCorrect(A, ShortProgram(), ShortCode(v), ShortLine(v), 10, env, gas);
    ShortRuns(A, v, Site(Main, 0, true), env, gas);
    ShortRuns(A, v, Site(Main, 0, false), env, gas);
  }

  lemma ShortRuns(A: Arith, v: Num, s: Site, env: Env, gas: nat)
    requires !A.isZero(v) && gas >= 5 && s.depth == 0
    ensures Perform(A, ShortProgram(), ShortLine(v), s, Data(env, []), 0, gas) ==
            if s.emitted then SFail(NoAddress, env) else Norm(Data(env, []), gas - 5)
  {
    var P, args := ShortProgram(), MoreArgs(KConst(v), NoArgs);
    assert EvalArgs(A, P, NoArgs, s, Data(env, []), 1, gas - 1) == Vals([], Data(env, []), gas - 1);
    assert EvalArgs(A, P, args, s, Data(env, []), 0, gas) == Vals([v], Data(env, []), gas - 1);
    var inner, d := Site(Proc, 1, s.emitted), Data(env, [v]);
    assert Evaluate(A, P, KArg(1), inner, d, 1, gas - 3) == Val(v, d, gas - 4);
    ShortBodyRuns(A, P, inner, d, gas - 2);
  }

  lemma ShortBodyRuns(A: Arith, P: Program, s: Site, d: Data, gas: nat)
    requires gas >= 3 && |d.args| == 1 && !A.isZero(d.args[0]) && s.kind == Proc && s.depth == 1
    ensures Perform(A, P, ShortBody(), s, d, 1, gas) ==
            if s.emitted then SFail(NoAddress, d.env) else Ret(None, d.env, gas - 3)
  {
    assert Evaluate(A, P, KArg(1), s, d, 1, gas - 1) == Val(d.args[0], d, gas - 2);
    assert Perform(A, P, KEmpty, s, d, 1, gas) == Norm(d, gas);
    assert Perform(A, P, KReturn, s, d, 1, gas - 2) == Leave(s, d.env, gas - 2);
    assert Perform(A, P, KIf(KArg(1), KReturn), s, d, 1, gas) == PartOf(A, P, KReturn, s, d, 1, gas - 2);
  }
}
