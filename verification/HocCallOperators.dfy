/** The operators and variables of hoc in expressions with calls. */
module HocCallOperators {
  import opened HocLanguage
  import opened HocFunctions
  import opened HocOperators

  /** The same for expressions with calls; the operator is one dispatch. */
  lemma CallBinMeans(A: Arith, P: Program, op: BinOp, l: FExpr, r: FExpr, s: Site, data: Data, h: nat,
                     gas: nat, c: Calc)
    requires Evaluate(A, P, l, s, data, h, gas).Val?
    requires var x := Evaluate(A, P, l, s, data, h, gas);
             Evaluate(A, P, r, s, x.data, h + 1, x.gas).Val?
    requires var x := Evaluate(A, P, l, s, data, h, gas);
             Means(A, op, x.v, Evaluate(A, P, r, s, x.data, h + 1, x.gas).v, c)
    ensures var x := Evaluate(A, P, l, s, data, h, gas);
            var y := Evaluate(A, P, r, s, x.data, h + 1, x.gas);
            Evaluate(A, P, KBin(op, l, r), s, data, h, gas)
            == if y.gas == 0 then EOut
               else if c.Result? then Val(c.v, y.data, y.gas - 1) else EFail(Base(c.err), y.data.env)
  {
    var x := Evaluate(A, P, l, s, data, h, gas);
    var y := Evaluate(A, P, r, s, x.data, h + 1, x.gas);
    assert Evaluate(A, P, KBin(op, l, r), s, data, h, gas)
        == if y.gas == 0 then EOut else OfEval(OfCalc(Apply(A, op, x.v, y.v), y.data.env), y.data, y.gas - 1);
    hide Evaluate;
    var d := OneMeaning(A, op, x.v, y.v);
    assert c == Apply(A, op, x.v, y.v);
  }

  lemma CallNegMeans(A: Arith, P: Program, e: FExpr, s: Site, data: Data, h: nat, gas: nat)
    requires Evaluate(A, P, e, s, data, h, gas).Val?
    ensures var o := Evaluate(A, P, e, s, data, h, gas);
            Evaluate(A, P, KNeg(e), s, data, h, gas)
            == if o.gas == 0 then EOut else Val(A.negate(o.v), o.data, o.gas - 1)
  {
  }

  lemma CallVarMeans(A: Arith, P: Program, x: Name, s: Site, data: Data, h: nat, gas: nat)
    requires x in data.env.vars && h < NSTACK && gas >= 2
    ensures var r := Evaluate(A, P, KVar(x), s, data, h, gas);
            && (forall v :: data.env.vars[x] == Value(v) ==> r == Val(v, data, gas - 2))
            && (data.env.vars[x] == Undef ==> r == EFail(Base(UndefinedVariable(x)), data.env))
  {
  }

  lemma CallAssignMeans(A: Arith, P: Program, x: Name, e: FExpr, s: Site, data: Data, h: nat, gas: nat)
    requires Evaluate(A, P, e, s, data, h, gas).Val? && h + 1 < NSTACK
    requires var o := Evaluate(A, P, e, s, data, h, gas); o.gas >= 2 && x in o.data.env.vars
    ensures var o := Evaluate(A, P, e, s, data, h, gas);
            Evaluate(A, P, KAssign(x, e), s, data, h, gas)
            == if o.data.env.vars[x].Other? then EFail(Base(NonVariable(x)), o.data.env)
               else Val(o.v, Data(Env(o.data.env.vars[x := Value(o.v)], o.data.env.out), o.data.args), o.gas - 2)
  {
  }

  /** A condition holds unless its value is zero; `if` itself is one dispatch. */
  lemma CallIfMeans(A: Arith, P: Program, c: FExpr, st: FStmt, other: FStmt, s: Site, data: Data, h: nat, gas: nat)
    requires gas > 0 && Evaluate(A, P, c, s, data, h, gas - 1).Val? && !st.KReturn? && !other.KReturn?
    ensures var o := Evaluate(A, P, c, s, data, h, gas - 1);
            && Perform(A, P, KIf(c, st), s, data, h, gas)
               == (if A.isZero(o.v) then Norm(o.data, o.gas) else Perform(A, P, st, s, o.data, h, o.gas))
            && Perform(A, P, KIfElse(c, st, other), s, data, h, gas)
               == Perform(A, P, if A.isZero(o.v) then other else st, s, o.data, h, o.gas)
  {
    hide Evaluate;
  }

  /** A loop whose condition is zero is over, and else runs its body first. */
  lemma CallWhileMeans(A: Arith, P: Program, c: FExpr, st: FStmt, s: Site, data: Data, h: nat, gas: nat)
    requires gas > 0 && Evaluate(A, P, c, s, data, h, gas - 1).Val? && !st.KReturn?
    ensures var o := Evaluate(A, P, c, s, data, h, gas - 1);
            var r := Perform(A, P, KWhile(c, st), s, data, h, gas);
            if A.isZero(o.v) then r == Norm(o.data, o.gas)
            else var b := Perform(A, P, st, s, o.data, h, o.gas);
                 if b.Norm? then r == Perform(A, P, KWhile(c, st), s, b.data, h, b.gas + 1) else r == b
  {
    hide Evaluate, EvalArgs, Invoke;
    var o := Evaluate(A, P, c, s, data, h, gas - 1);
    assert Perform(A, P, KWhile(c, st), s, data, h, gas) == Turns(A, P, c, None, st, s, data, h, gas - 1);
    if !A.isZero(o.v) {
      var b := Perform(A, P, st, s, o.data, h, o.gas);
      assert PartOf(A, P, st, s, o.data, h, o.gas) == b;
      if b.Norm? {
        assert PostOf(A, P, None, s, b.data, h, b.gas) == b;
        assert Perform(A, P, KWhile(c, st), s, b.data, h, b.gas + 1) == Turns(A, P, c, None, st, s, b.data, h, b.gas);
      }
    }
  }

  /** $k is the k-th argument, and what has been assigned to it after that. */
  lemma ArgMeans(A: Arith, P: Program, k: nat, e: FExpr, s: Site, data: Data, h: nat, gas: nat)
    requires 1 <= k <= |data.args| && h < NSTACK && gas > 0
    ensures Evaluate(A, P, KArg(k), s, data, h, gas) == Val(data.args[k - 1], data, gas - 1)
    ensures var o := Evaluate(A, P, e, s, data, h, gas);
            o.Val? && o.gas > 0 ==>
              Evaluate(A, P, KArgAssign(k, e), s, data, h, gas)
              == Val(o.v, Data(o.data.env, o.data.args[k - 1 := o.v]), o.gas - 1)
  {
  }

  /** Arguments are evaluated from the first to the last, each on top of those before it. */
  lemma ArgsMean(A: Arith, P: Program, a: FExpr, b: FExpr, s: Site, data: Data, h: nat, gas: nat)
    requires Evaluate(A, P, a, s, data, h, gas).Val?
    requires var x := Evaluate(A, P, a, s, data, h, gas); Evaluate(A, P, b, s, x.data, h + 1, x.gas).Val?
    ensures var x := Evaluate(A, P, a, s, data, h, gas);
            var y := Evaluate(A, P, b, s, x.data, h + 1, x.gas);
            EvalArgs(A, P, MoreArgs(a, MoreArgs(b, NoArgs)), s, data, h, gas) == Vals([x.v, y.v], y.data, y.gas)
  {
    hide Evaluate;
    var x := Evaluate(A, P, a, s, data, h, gas);
    var y := Evaluate(A, P, b, s, x.data, h + 1, x.gas);
    assert EvalArgs(A, P, NoArgs, s, y.data, h + 2, y.gas) == Vals([], y.data, y.gas);
    assert EvalArgs(A, P, MoreArgs(b, NoArgs), s, x.data, h + 1, x.gas) == Vals([y.v] + [], y.data, y.gas);
  }

  /**
   * A function whose body is `return e`: its call has the value of e with the arguments in place,
   * and leaves the caller its own arguments.
   */
  lemma CallMeans(A: Arith, P: Program, f: Name, args: Args, e: FExpr, s: Site, data: Data, h: nat, gas: nat)
    requires f in P && P[f].kind == Func && P[f].body == KReturnValue(e) && s.depth < NFRAME - 1
    requires EvalArgs(A, P, args, s, data, h, gas).Vals? && EvalArgs(A, P, args, s, data, h, gas).gas > 0
    ensures var o := EvalArgs(A, P, args, s, data, h, gas);
            var r := Evaluate(A, P, e, Site(Func, s.depth + 1, s.emitted), Data(o.data.env, o.vs), h + |o.vs|,
                o.gas - 1);
            r.Val? && r.gas > 0 ==>
              Evaluate(A, P, KCall(f, args), s, data, h, gas) == Val(r.v, Data(r.data.env, o.data.args), r.gas - 1)
  {
    hide Evaluate, EvalArgs;
    var o := EvalArgs(A, P, args, s, data, h, gas);
    var s1 := Site(Func, s.depth + 1, s.emitted);
    var r := Evaluate(A, P, e, s1, Data(o.data.env, o.vs), h + |o.vs|, o.gas - 1);
    if r.Val? && r.gas > 0 {
      BodyReturns(A, P, e, s1, Data(o.data.env, o.vs), h + |o.vs|, o.gas - 1);
      assert Invoke(A, P, f, args, s, data, h, gas) == Ret(Some(r.v), r.data.env, r.gas - 1);
      CallIs(A, P, f, args, s, data, h, gas);
    }
  }

  lemma BodyReturns(A: Arith, P: Program, e: FExpr, s: Site, data: Data, h: nat, gas: nat)
    requires s.kind == Func && s.depth > 0
    requires Evaluate(A, P, e, s, data, h, gas).Val? && Evaluate(A, P, e, s, data, h, gas).gas > 0
    ensures var r := Evaluate(A, P, e, s, data, h, gas);
            Perform(A, P, KReturnValue(e), s, data, h, gas) == Ret(Some(r.v), r.data.env, r.gas - 1)
  {
    hide Evaluate;
  }

  lemma CallIs(A: Arith, P: Program, f: Name, args: Args, s: Site, data: Data, h: nat, gas: nat)
    requires var i := Invoke(A, P, f, args, s, data, h, gas); i.Ret? && i.v.Some?
    ensures var i := Invoke(A, P, f, args, s, data, h, gas);
            var o := EvalArgs(A, P, args, s, data, h, gas);
            o.Vals? && Evaluate(A, P, KCall(f, args), s, data, h, gas) == Val(i.v.value, o.data.(env := i.env), i.gas)
  {
    hide Invoke, EvalArgs, Perform;
  }

  /** So a function that returns $1 - $2 subtracts its second argument from its first. */
  lemma SubtractsInOrder(A: Arith, P: Program, f: Name, a: FExpr, b: FExpr, s: Site, data: Data, h: nat, gas: nat)
    requires f in P && P[f].kind == Func && P[f].body == KReturnValue(KBin(Sub, KArg(1), KArg(2)))
    requires s.depth < NFRAME - 1 && h + 4 <= NSTACK && Evaluate(A, P, a, s, data, h, gas).Val?
    requires var x := Evaluate(A, P, a, s, data, h, gas);
             Evaluate(A, P, b, s, x.data, h + 1, x.gas).Val? && Evaluate(A, P, b, s, x.data, h + 1, x.gas).gas >= 5
    ensures var x := Evaluate(A, P, a, s, data, h, gas);
            var y := Evaluate(A, P, b, s, x.data, h + 1, x.gas);
            Evaluate(A, P, KCall(f, MoreArgs(a, MoreArgs(b, NoArgs))), s, data, h, gas)
            == Val(A.arith(Sub, x.v, y.v), y.data, y.gas - 5)
  {
    hide Evaluate, EvalArgs, Apply;
    var x := Evaluate(A, P, a, s, data, h, gas);
    var y := Evaluate(A, P, b, s, x.data, h + 1, x.gas);
    ArgsMean(A, P, a, b, s, data, h, gas);
    var s1, d1 := Site(Func, s.depth + 1, s.emitted), Data(y.data.env, [x.v, y.v]);
    ArgMeans(A, P, 1, KArg(1), s1, d1, h + 2, y.gas - 1);
    ArgMeans(A, P, 2, KArg(1), s1, d1, h + 3, y.gas - 2);
    CallBinMeans(A, P, Sub, KArg(1), KArg(2), s1, d1, h + 2, y.gas - 1, Result(A.arith(Sub, x.v, y.v)));
    CallMeans(A, P, f, MoreArgs(a, MoreArgs(b, NoArgs)), KBin(Sub, KArg(1), KArg(2)), s, data, h, gas);
  }
}
