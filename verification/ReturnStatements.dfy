/** Whole functions of the form `return e1, ..., en`: the emitted program, run from its
    first instruction, returns the values of the expressions. */
module ReturnStatements {
  import opened Common
  import opened LuaValues
  import opened Opcodes
  import opened PartialCode
  import opened CodeGen
  import opened GenInvariant
  import opened ExpMeaning
  import opened Operands
  import opened BinaryOperands
  import opened Compilation

  /** open_func and parlist: n parameters in the first n registers. */
  function NewFunction(n: nat): Gen {
    ReserveRegs(Gen([], [], [], -1, 0, n, 2, true), n)
  }

  /** explist1 with every value pushed. */
  function PushAll(ops: Ops, g: Gen, es: seq<Expr>): (r: Gen)
    ensures Grows(g, r)
  {
    if es == [] then g
    else
      var g1 := PushAll(ops, g, es[..|es| - 1]);
      var (g2, e) := Compile(ops, g1, es[|es| - 1]);
      Exp2NextReg(g2, e).0
  }

  /** retstat. */
  function RetStat(ops: Ops, g: Gen, es: seq<Expr>): (r: Gen)
    ensures Grows(g, r)
  {
    if es == [] then Emit(g, Return(0, 1))
    else if |es| == 1 then
      var (g1, e1) := Compile(ops, g, es[0]);
      var (g2, e2) := Exp2AnyReg(g1, e1);
      Emit(g2, Return(e2.info, 2))
    else
      var g1 := PushAll(ops, g, es);
      Emit(g1, Return(g.nactvar, g1.freereg - g.nactvar + 1))
  }

  function EvalAll(env: Env, r: Regs, es: seq<Expr>): Option<seq<Value>> {
    if es == [] then Some([])
    else
      match EvalAll(env, r, es[..|es| - 1])
      case None => None
      case Some(vs) =>
        match Eval(env, r, es[|es| - 1])
        case None => None
        case Some(v) => Some(vs + [v])
  }

  ghost function ThenReturn(o: Outcome, a: int, n: int): Outcome {
    match o
    case Reach(r1) => Done(Results(r1, a, n))
    case _ => o
  }

  lemma ReturnHere(c: Code, a: int, n: nat, env: Env, r: Regs)
    ensures RunFrom(c + [Return(a, n + 1)], env, |c|, r) == Done(Results(r, a, n))
  {
  }

  lemma ReturnRun(g: Gen, a: int, n: nat, env: Env, r: Regs)
    requires WFGen(g)
    ensures var c := Emit(g, Return(a, n + 1)).code;
            && WFCode(c)
            && RunFrom(c, env, 0, r) == ThenReturn(At(g, env, r), a, n)
  {
    DischargeWF(g);
    DischargeRun(g, env, r);
    var d := DischargeJpc(g);
    var i: AInstr := Return(a, n + 1);
    AppendWF(d.code, i);
    EntryEnd(d.code);
    RunAppend(d.code, [i], env, 0, r);
    var o := At(g, env, r);
    if o.Reach? { ReturnHere(d.code, a, n, env, o.regs); }
    hide RunFrom, WFCode, WFGen, KeepsOpen, At, Results, Entry;
  }

  ghost predicate InRow(r: Regs, a: int, vs: seq<Value>) {
    forall i :: 0 <= i < |vs| ==> Get(r, a + i) == vs[i]
  }

  lemma {:induction false} ResultsAre(r: Regs, a: int, vs: seq<Value>)
    requires InRow(r, a, vs)
    ensures Results(r, a, |vs|) == vs
    decreases |vs|
  {
    if vs != [] {
      assert Get(r, a + 0) == vs[0];
      forall i | 0 <= i < |vs[1..]| ensures Get(r, (a + 1) + i) == vs[1..][i] {
        assert Get(r, a + (i + 1)) == vs[i + 1];
      }
      ResultsAre(r, a + 1, vs[1..]);
    }
  }

  ghost predicate Pushed(o: Outcome, o': Outcome, fr: int, env: Env, es: seq<Expr>) {
    match o
    case Reach(r0) =>
      (match EvalAll(env, r0, es)
       case None => o' == Fail
       case Some(vs) => o'.Reach? && Same(r0, o'.regs, fr, -1) && InRow(o'.regs, fr, vs))
    case _ => o' == o
  }

  ghost predicate WFExprs(ops: Ops, es: seq<Expr>, n: nat) {
    forall i :: 0 <= i < |es| ==> WFExpr(ops, es[i], n)
  }

  lemma {:induction false} EvalAllLength(env: Env, r: Regs, es: seq<Expr>)
    ensures EvalAll(env, r, es).Some? ==> |EvalAll(env, r, es).value| == |es|
    decreases |es|
  {
    if es != [] { EvalAllLength(env, r, es[..|es| - 1]); }
  }

  /** Compiling one more expression into the next register. */
  lemma PushOne(ops: Ops, g: Gen, e: Expr, env: Env, r: Regs)
    requires Ready(ops, g, env, r) && WFExpr(ops, e, g.nactvar) && Sane(g, env, r)
    requires var (g1, d) := Compile(ops, g, e);
             Exp2NextReg(g1, d).0.ok && Exp2NextReg(g1, d).0.consts <= env.k
    ensures var (g1, d) := Compile(ops, g, e);
            var g2 := Exp2NextReg(g1, d).0;
            && Ready(ops, g2, env, r) && Sane(g2, env, r) && g2.freereg == g.freereg + 1 && g2.nactvar == g.nactvar
            && match At(g, env, r)
               case Reach(r0) =>
                 (match Eval(env, r0, e)
                  case None => At(g2, env, r) == Fail
                  case Some(v) => At(g2, env, r).Reach? && Same(r0, At(g2, env, r).regs, g.freereg, -1)
                                  && Get(At(g2, env, r).regs, g.freereg) == v)
               case o => At(g2, env, r) == o
  {
    hide RunFrom, Ready, Compile, Exp2NextReg, At, WFGen, ListsOk;
    var (g1, d) := Compile(ops, g, e);
    var (g2, d2) := Exp2NextReg(g1, d);
    CompileOk(ops, g, e, env, r);
    CompiledParts(ops, g, e, g1, d, env, r);
    ReadyParts(ops, g, g1, env, r);
    Exp2NextRegOk(ops, g1, d, g.freereg, -1, env, r, Start(g, env, r, e));
    ReadyNext(ops, g, g2, d2, env, r);
    ReadyWF(ops, g2, env, r);
    SaneAfter(g2, d2, g.freereg, env, r, Start(g, env, r, e));
  }

  lemma ReadyNext(ops: Ops, g: Gen, g2: Gen, d2: AExp, env: Env, r: Regs)
    requires Ready(ops, g, env, r) && Inv(ops, g2, d2, g.freereg) && Grows(g, g2) && g2.freereg == g.freereg + 1
    ensures Ready(ops, g2, env, r)
  {
  }

  lemma {:induction false} PushAllOk(ops: Ops, g: Gen, es: seq<Expr>, env: Env, r: Regs)
    requires Ready(ops, g, env, r) && Sane(g, env, r) && WFExprs(ops, es, g.nactvar)
    requires PushAll(ops, g, es).ok && PushAll(ops, g, es).consts <= env.k
    ensures var g' := PushAll(ops, g, es);
            && Ready(ops, g', env, r) && Sane(g', env, r)
            && g'.freereg == g.freereg + |es| && g'.nactvar == g.nactvar
            && Pushed(At(g, env, r), At(g', env, r), g.freereg, env, es)
    decreases |es|
  {
    hide RunFrom, Ready, Compile, Exp2NextReg, At;
    if es != [] {
      var front := es[..|es| - 1];
      var e := es[|es| - 1];
      var g1 := PushAll(ops, g, front);
      assert WFExprs(ops, front, g.nactvar);
      assert WFExpr(ops, e, g.nactvar);
      PushAllOk(ops, g, front, env, r);
      PushOne(ops, g1, e, env, r);
      ReadyParts(ops, g, g, env, r);
      var o, o1 := At(g, env, r), At(g1, env, r);
      if o.Reach? && o1.Reach? {
        EvalAllLength(env, o.regs, front);
        EvalSame(env, o.regs, o1.regs, e, g.nactvar);
      }
    }
  }

  /** What a function does that ends with `return e1, ..., en` and has come to it with an outcome. */
  ghost function Returned(env: Env, o: Outcome, es: seq<Expr>): Outcome {
    if !o.Reach? then o
    else
      match EvalAll(env, o.regs, es)
      case None => Fail
      case Some(vs) => Done(vs)
  }

  /** The code of `return e1, ..., en` returns the values of the expressions, or fails exactly when
      one of them is an error; a run that does not come to it stays as it was. */
  lemma ReturnOk(ops: Ops, g: Gen, es: seq<Expr>, env: Env, r: Regs)
    requires Ready(ops, g, env, r) && g.freereg == g.nactvar && WFExprs(ops, es, g.nactvar)
    requires Sane(g, env, r)
    requires RetStat(ops, g, es).ok && RetStat(ops, g, es).consts <= env.k
    ensures var c := RetStat(ops, g, es).code;
            WFCode(c) && RunFrom(c, env, 0, r) == Returned(env, At(g, env, r), es)
  {
    hide RunFrom, Ready, Compile, Exp2NextReg, Exp2AnyReg, At, WFGen, ListsOk;
    ReadyParts(ops, g, g, env, r);
    if es == [] {
      ReadyWF(ops, g, env, r);
      ReturnRun(g, 0, 0, env, r);
    } else if |es| == 1 {
      ReturnOne(ops, g, es, env, r);
    } else {
      var g1 := PushAll(ops, g, es);
      assert Grows(g1, RetStat(ops, g, es));
      PushAllOk(ops, g, es, env, r);
      ReadyWF(ops, g1, env, r);
      ReturnRun(g1, g.nactvar, |es|, env, r);
      var o := At(g, env, r);
      if o.Reach? {
        EvalAllLength(env, o.regs, es);
        if EvalAll(env, o.regs, es).Some? {
          ResultsAre(At(g1, env, r).regs, g.nactvar, EvalAll(env, o.regs, es).value);
        }
      }
    }
  }

  lemma ReadyWF(ops: Ops, g: Gen, env: Env, r: Regs)
    requires Ready(ops, g, env, r)
    ensures WFGen(g) && g.ok
  {
  }

  lemma ReturnOne(ops: Ops, g: Gen, es: seq<Expr>, env: Env, r: Regs)
    requires Ready(ops, g, env, r) && |es| == 1 && WFExprs(ops, es, g.nactvar)
    requires Sane(g, env, r)
    requires RetStat(ops, g, es).ok && RetStat(ops, g, es).consts <= env.k
    ensures var c := RetStat(ops, g, es).code;
            WFCode(c) && RunFrom(c, env, 0, r) == Returned(env, At(g, env, r), es)
  {
    hide RunFrom, Ready, Compile, Exp2AnyReg, At, ListsOk, WFCode;
    var (g1, e1) := Compile(ops, g, es[0]);
    var (g2, e2) := Exp2AnyReg(g1, e1);
    assert Grows(g2, RetStat(ops, g, es));
    assert WFExpr(ops, es[0], g.nactvar);
    var x := Start(g, env, r, es[0]);
    CompileOk(ops, g, es[0], env, r);
    CompiledParts(ops, g, es[0], g1, e1, env, r);
    ReadyParts(ops, g, g1, env, r);
    Exp2AnyRegOk(ops, g1, e1, g.freereg, -1, env, r, x);
    ReturnRun(g2, e2.info, 1, env, r);
    assert CodeOutcome(g2, e2, env, r) == At(g2, env, r);
    if At(g, env, r).Reach? { OneValue(env, At(g, env, r).regs, es); }
    if At(g2, env, r).Reach? {
      var r2 := At(g2, env, r).regs;
      ResultsAre(r2, e2.info, [Get(r2, e2.info)]);
    }
  }

  lemma OneValue(env: Env, r: Regs, es: seq<Expr>)
    requires |es| == 1
    ensures EvalAll(env, r, es) == match Eval(env, r, es[0]) case None => None case Some(v) => Some([v])
  {
    var front := es[..|es| - 1];
    assert front == [];
    assert EvalAll(env, r, front) == Some([]);
    assert forall v: Value :: [] + [v] == [v];
  }

  lemma NewFunctionReady(ops: Ops, n: nat, env: Env, r: Regs)
    requires NewFunction(n).ok && env.ops == ops && NegationKeepsNumbers(ops)
    requires forall i :: i >= n ==> Get(r, i) == Nil
    ensures var g := NewFunction(n);
            Ready(ops, g, env, r) && g.freereg == g.nactvar == n && At(g, env, r) == Reach(r)
  {
  }

  /** Compilation of a whole function preserves meaning. */
  lemma FunctionOk(ops: Ops, n: nat, es: seq<Expr>, env: Env, r: Regs)
    requires env.ops == ops && NegationKeepsNumbers(ops)
    requires forall i :: i >= n ==> Get(r, i) == Nil
    requires WFExprs(ops, es, n)
    requires var g := RetStat(ops, NewFunction(n), es); g.ok && g.consts <= env.k
    ensures var c := RetStat(ops, NewFunction(n), es).code;
            && WFCode(c)
            && RunFrom(c, env, 0, r) ==
               match EvalAll(env, r, es)
               case None => Fail
               case Some(vs) => Done(vs)
  {
    hide RunFrom, RetStat, WFCode;
    NewFunctionReady(ops, n, env, r);
    ReturnOk(ops, NewFunction(n), es, env, r);
  }
}
