/** From source tokens to results: reading `return e1, ..., en`, compiling it in place, and
    executing the instructions gives the values of the expressions. */
module Chunk {
  import opened Common
  import opened LuaValues
  import opened Opcodes
  import opened PartialCode
  import opened CodeGen
  import opened GenInvariant
  import opened ExpMeaning
  import opened BinaryOperands
  import opened ReturnStatements
  import opened GenSteps
  import opened JumpLists
  import opened LCode
  import opened Syntax
  import opened Grammar
  import opened ParserSteps
  import opened LParser
  import opened Vm

  const LUAI_MAXVARS: nat := 200

  // ----- explist1 -----

  /** All expressions but the last have been pushed. */
  function PushFront(ops: Ops, g: Gen, es: seq<Expr>): (r: Gen)
    requires es != []
  {
    PushAll(ops, g, es[..|es| - 1])
  }

  lemma {:induction false} PushGrows(ops: Ops, g: Gen, es: seq<Expr>, n: nat)
    requires n <= |es|
    ensures PushAll(ops, g, es).ok ==> PushAll(ops, g, es[..n]).ok
    decreases |es|
  {
    hide Compile, Exp2NextReg;
    if n < |es| {
      PushGrows(ops, g, es[..|es| - 1], n);
      assert es[..|es| - 1][..n] == es[..n];
    } else {
      assert es[..n] == es;
    }
  }

  /** The generator after the last expression has been compiled too. */
  function ListState(ops: Ops, g: Gen, es: seq<Expr>): (Gen, AExp)
    requires es != []
  {
    Compile(ops, PushFront(ops, g, es), es[|es| - 1])
  }

  lemma RetGrows(ops: Ops, g: Gen, es: seq<Expr>, n: nat)
    requires 1 <= n <= |es|
    ensures RetStat(ops, g, es).ok ==> ListState(ops, g, es[..n]).0.ok
    ensures RetStat(ops, g, es).ok && n < |es| ==> PushAll(ops, g, es[..n]).ok
  {
    hide Compile, Exp2NextReg, Exp2AnyReg, Emit;
    if |es| == 1 {
      assert es[..n] == es && es[..0] == [];
    } else {
      PushGrows(ops, g, es, n);
      assert es[..n][..n - 1] == es[..n - 1];
    }
  }

  lemma NextKeeps(ops: Ops, g: Gen, es: seq<Expr>)
    requires es != [] && CanStart(ops, PushFront(ops, g, es))
        && WFExpr(ops, es[|es| - 1], PushFront(ops, g, es).nactvar)
    requires PushAll(ops, g, es).ok
    ensures CanStart(ops, PushAll(ops, g, es)) && PushAll(ops, g, es).nactvar == PushFront(ops, g, es).nactvar
  {
    hide Compile, Exp2NextReg, WFCode, ListsOk, Frame, TargetsLabelled, AllOpen;
    var g1 := PushFront(ops, g, es);
    CompileKeeps(ops, g1, es[|es| - 1]);
    var (g2, a) := Compile(ops, g1, es[|es| - 1]);
    Exp2NextRegKeeps(ops, g2, a, g1.freereg);
  }

  /** The values of es but the last have been pushed; v describes the last one. */
  ghost predicate Listed(ls: LexState, g0: Gen, es: seq<Expr>, v: CExp)
    reads ls, ls.fs
  {
    && es != [] && ls.fs.abs == ListState(ls.ops, g0, es).0 && ls.fs.Holds(v, ListState(ls.ops, g0, es).1)
    && CanStart(ls.ops, PushFront(ls.ops, g0, es)) && PushFront(ls.ops, g0, es).nactvar == g0.nactvar == |ls.sc.locals|
    && WFExprs(ls.ops, es, g0.nactvar) && GoodTokens(ls.ops, ls.toks)
  }

  lemma PushOneMore(ops: Ops, g: Gen, es: seq<Expr>, y: Expr)
    ensures PushFront(ops, g, es + [y]) == PushAll(ops, g, es)
        && ListState(ops, g, es + [y]) == Compile(ops, PushAll(ops, g, es), y)
    ensures forall n: nat :: WFExprs(ops, es, n) && WFExpr(ops, y, n) ==> WFExprs(ops, es + [y], n)
  {
    assert (es + [y])[..|es|] == es;
  }

  lemma NextInList(ops: Ops, g: Gen, es: seq<Expr>, y: Expr, final: seq<Expr>)
    requires |final| >= |es| + 1 && final[..|es| + 1] == es + [y] && es != []
    ensures RetStat(ops, g, final).ok ==> PushAll(ops, g, es).ok && ListState(ops, g, es + [y]).0.ok
  {
    hide RetStat, PushAll, ListState;
    RetGrows(ops, g, final, |es|);
    RetGrows(ops, g, final, |es| + 1);
    assert final[..|es|] == final[..|es| + 1][..|es|] == es;
  }

  lemma PushIs(ops: Ops, g: Gen, es: seq<Expr>)
    requires es != []
    ensures PushAll(ops, g, es) == Exp2NextReg(ListState(ops, g, es).0, ListState(ops, g, es).1).0
  {
    hide Compile, Exp2NextReg;
  }

  lemma ListKeeps(ops: Ops, g: Gen, es: seq<Expr>)
    requires es != [] && CanStart(ops, PushFront(ops, g, es)) && WFExprs(ops, es, g.nactvar)
        && PushFront(ops, g, es).nactvar == g.nactvar
    requires ListState(ops, g, es).0.ok
    ensures Inv(ops, ListState(ops, g, es).0, ListState(ops, g, es).1, PushFront(ops, g, es).freereg)
    ensures WFExpr(ops, es[|es| - 1], g.nactvar)
  {
    hide CanStart, Compile, PushFront, WFExpr, Inv;
    CompileKeeps(ops, PushFront(ops, g, es), es[|es| - 1]);
  }

  lemma MoreRead(sc: Scope, es: seq<Expr>, ts: seq<Token>, level: nat)
    requires ts != [] && ts[0].COMMA?
    ensures var q := ParseSub(sc, ts[1..], 0, level);
            var p := ParseMore(sc, es, ts, level);
            && (p.Some? ==> q.Some? && |p.value.0| >= |es| + 1 && p.value.0[..|es| + 1] == es + [q.value.0])
            && (q.Some? ==> p == ParseMore(sc, es + [q.value.0], q.value.1, level))
  {
    hide ParseSub;
  }

  lemma MoreEnds(sc: Scope, es: seq<Expr>, ts: seq<Token>, level: nat)
    requires ts == [] || !ts[0].COMMA?
    ensures ParseMore(sc, es, ts, level) == Some((es, ts))
  {
  }

  /** explist1 after its first expression. */
  method ExpList1(ls: LexState, v0: CExp, ghost g0: Gen, ghost x: Expr)
      returns (r: Result<(CExp, nat)>, ghost es: seq<Expr>)
    requires Listed(ls, g0, [x], v0)
    modifies ls, ls.fs
    ensures
      var p := ParseMore(ls.sc, [x], old(ls.toks), old(ls.nCcalls));
      && (p.Some? && RetStat(ls.ops, g0, p.value.0).ok ==> r.Success?)
      && (r.Success? ==>
          p == Some((es, ls.toks)) && r.value.1 == |es| && Listed(ls, g0, es, r.value.0)
          && ls.nCcalls == old(ls.nCcalls))
  {
    hide Compile, RetStat, CanStart, GoodTokens, CodeRep, Chain, ConstIndex, ParseSub, ParseMore, WFExprs, PushAll,
        PushFront, ListState, ExpRep, CodeGen.Exp2NextReg, LinksKept, Inv;
    ghost var p := ParseMore(ls.sc, [x], ls.toks, ls.nCcalls);
    var v, n := v0, 1;
    es := [x];
    while ls.toks != [] && ls.toks[0].COMMA?
      invariant Listed(ls, g0, es, v) && n == |es| && ls.nCcalls == old(ls.nCcalls)
      invariant p == ParseMore(ls.sc, es, ls.toks, ls.nCcalls)
      decreases |ls.toks|
    {
      ghost var q := ParseSub(ls.sc, ls.toks[1..], 0, ls.nCcalls);
      ghost var y := if q.Some? then q.value.0 else ENil;
      MoreRead(ls.sc, es, ls.toks, ls.nCcalls);
      PushOneMore(ls.ops, g0, es, y);
      if p.Some? { NextInList(ls.ops, g0, es, y, p.value.0); }
      ListKeeps(ls.ops, g0, es);
      PushIs(ls.ops, g0, es);
      v :- ls.fs.Exp2NextReg(v, ls.ops, ListState(ls.ops, g0, es).1, PushFront(ls.ops, g0, es).freereg);
      NextKeeps(ls.ops, g0, es);
      TailTokens(ls.ops, ls.toks, 1);
      ls.Next();
      v :- ls.SubExpr(0);
      es, n := es + [y], n + 1;
    }
    MoreEnds(ls.sc, es, ls.toks, ls.nCcalls);
    return Success((v, n)), es;
  }

  /** luaK_ret at the end of retstat. */
  method EmitReturn(ls: LexState, v0: CExp, n: nat, ghost g0: Gen, ghost es: seq<Expr>) returns (r: Result<()>)
    requires Listed(ls, g0, es, v0) && n == |es| && g0.freereg == g0.nactvar
    modifies ls.fs
    ensures r.Success? <==> RetStat(ls.ops, g0, es).ok
    ensures r.Success? ==> ls.fs.Rep() && ls.fs.abs == RetStat(ls.ops, g0, es)
  {
    hide Compile, CanStart, GoodTokens, CodeRep, Chain, ConstIndex, WFExprs, PushAll, PushFront, ListState, ListsRep,
        RetStat, CodeGen.Exp2NextReg, CodeGen.Exp2AnyReg, LinksKept, Inv, Emit;
    ghost var ops, g1, a1 := ls.ops, ls.fs.abs, ListState(ls.ops, g0, es).1;
    ListKeeps(ops, g0, es);
    ghost var fr := PushFront(ops, g0, es).freereg;
    if n == 1 {
      ReturnOneIs(ops, g0, es);
      var v :- ls.fs.Exp2AnyReg(v0, ops, a1, fr);
      Exp2AnyRegKeeps(ops, g1, a1, fr);
      Pending(ops, ls.fs.abs, CodeGen.Exp2AnyReg(g1, a1).1, fr);
      var _ :- ls.fs.Code(Return(v.info, 2), Return(v.info, 2));
    } else {
      PushIs(ops, g0, es);
      ReturnManyIs(ops, g0, es);
      var v :- ls.fs.Exp2NextReg(v0, ops, a1, fr);
      Exp2NextRegKeeps(ops, g1, a1, fr);
      Pending(ops, ls.fs.abs, CodeGen.Exp2NextReg(g1, a1).1, fr);
      ghost var i := Return(ls.fs.nactvar, ls.fs.freereg - ls.fs.nactvar + 1);
      var _ :- ls.fs.Code(Return(ls.fs.nactvar, ls.fs.freereg - ls.fs.nactvar + 1), i);
    }
    return Success(());
  }

  lemma ReturnOneIs(ops: Ops, g: Gen, es: seq<Expr>)
    requires |es| == 1
    ensures var (g1, a1) := ListState(ops, g, es);
            var (g2, a2) := Exp2AnyReg(g1, a1);
            RetStat(ops, g, es) == Emit(g2, Return(a2.info, 2))
  {
    hide Compile, Exp2AnyReg, Emit;
    assert es[..0] == [];
  }

  lemma ReturnManyIs(ops: Ops, g: Gen, es: seq<Expr>)
    requires |es| >= 2
    ensures var g1 := PushAll(ops, g, es);
            RetStat(ops, g, es) == Emit(g1, Return(g.nactvar, g1.freereg - g.nactvar + 1)) && g1.nactvar == g.nactvar
  {
    hide Compile, Exp2NextReg, Emit;
  }

  lemma Pending(ops: Ops, g: Gen, a: AExp, fr: int)
    requires Inv(ops, g, a, fr)
    ensures NoDup(g.jpc) && AllOpen(g.code, Elems(g.jpc))
  {
  }

  /** retstat. */
  method RetStatement(ls: LexState) returns (r: Result<()>)
    requires ls.Ready() && ls.fs.abs.freereg == ls.fs.abs.nactvar && ls.toks != [] && ls.toks[0].TRETURN?
    modifies ls, ls.fs
    ensures
      var p := ParseReturn(ls.sc, old(ls.toks), old(ls.nCcalls));
      var g0 := old(ls.fs.abs);
      && (r.Success? <==> p.Some? && RetStat(ls.ops, g0, p.value.0).ok)
      && (r.Success? ==> ls.fs.Rep() && ls.fs.abs == RetStat(ls.ops, g0, p.value.0) && ls.toks == p.value.1
                         && WFExprs(ls.ops, p.value.0, g0.nactvar))
  {
    hide Compile, GoodTokens, CodeRep, Chain, ConstIndex, ParseSub, ParseMore, PushAll, ListState, ExpRep, LinksKept,
        Emit, RetStat;
    ghost var g0 := ls.fs.abs;
    ghost var q := ParseSub(ls.sc, ls.toks[1..], 0, ls.nCcalls);
    ghost var p := ParseReturn(ls.sc, ls.toks, ls.nCcalls);
    TailTokens(ls.ops, ls.toks, 1);
    ls.Next();
    if ls.toks == [] || ls.toks[0].BLOCKEND? || ls.toks[0].SEMICOLON? {
      ReturnNone(ls.ops, g0);
      var _ :- ls.fs.Code(Return(0, 1), Return(0, 1));
      return Success(());
    }
    ghost var x := if q.Some? then q.value.0 else ENil;
    FirstInList(ls.ops, g0, x);
    if p.Some? { RetGrows(ls.ops, g0, p.value.0, 1); }
    var v :- ls.SubExpr(0);
    ghost var es: seq<Expr>;
    var list: Result<(CExp, nat)>;
    list, es := ExpList1(ls, v, g0, x);
    if list.Failure? { return Failure(list.error); }
    r := EmitReturn(ls, list.value.0, list.value.1, g0, es);
  }

  lemma ReturnNone(ops: Ops, g: Gen)
    ensures RetStat(ops, g, []) == Emit(g, Return(0, 1))
  {
  }

  lemma FirstInList(ops: Ops, g: Gen, x: Expr)
    ensures ListState(ops, g, [x]) == Compile(ops, g, x) && PushFront(ops, g, [x]) == g
    ensures forall n: nat :: WFExpr(ops, x, n) ==> WFExprs(ops, [x], n)
  {
    assert [x][..0] == [];
  }

  // ----- running it -----

  /** The registers when a function is entered: its arguments, then nil. */
  function ArgRegs(args: seq<Value>): Regs {
    map i: int | 0 <= i < |args| :: args[i]
  }

  /** The arguments are in the first registers, in order, and all others are nil. */
  ghost predicate Entered(regs: Regs, args: seq<Value>) {
    forall i :: Get(regs, i) == if 0 <= i < |args| then args[i] else Nil
  }

  /** Values do not depend on the constant table. */
  lemma {:induction false} EvalNoConsts(env: Env, k: seq<Value>, r: Regs, e: Expr)
    ensures Eval(env.(k := k), r, e) == Eval(env, r, e)
    decreases e
  {
    match e
    case EIndex(t, key) => EvalNoConsts(env, k, r, t); EvalNoConsts(env, k, r, key);
    case EParen(x) => EvalNoConsts(env, k, r, x);
    case EUn(_, x) => EvalNoConsts(env, k, r, x);
    case EBin(_, a, b) => EvalNoConsts(env, k, r, a); EvalNoConsts(env, k, r, b);
    case _ =>
  }

  lemma {:induction false} EvalAllNoConsts(env: Env, k: seq<Value>, r: Regs, es: seq<Expr>)
    ensures EvalAll(env.(k := k), r, es) == EvalAll(env, r, es)
    decreases |es|
  {
    if es != [] {
      EvalAllNoConsts(env, k, r, es[..|es| - 1]);
      EvalNoConsts(env, k, r, es[|es| - 1]);
    }
  }

  /** What a function body `return explist` with the given parameters and arguments does. */
  function Meaning(env: Env, sc: Scope, toks: seq<Token>, args: seq<Value>): Option<Option<seq<Value>>> {
    match ParseReturn(sc, toks, 0)
    case None => None
    case Some((es, rest)) => if rest == [] then Some(EvalAll(env, ArgRegs(args), es)) else None
  }

  /** The function can be read and its code fits the limits of the instruction format. */
  predicate Accepted(ops: Ops, sc: Scope, toks: seq<Token>) {
    && |sc.locals| <= 200
    && match ParseReturn(sc, toks, 0)
       case None => false
       case Some((es, rest)) => rest == [] && RetStat(ops, NewFunction(|sc.locals|), es).ok
  }

  /** Compiling and running such a function: either it is refused (because it cannot be
      read, or its code does not fit the limits of the instruction format), or executing its
      code gives what its expressions mean, which are those that the grammar derives from the
      tokens; Success(None) is a run-time error. */
  method CompileAndRun(env: Env, sc: Scope, toks: seq<Token>, args: seq<Value>) returns (r: Result<Option<seq<Value>>>)
    requires NegationKeepsNumbers(env.ops) && GoodTokens(env.ops, toks) && |args| == |sc.locals|
    ensures r.Success? <==> Accepted(env.ops, sc, toks)
    ensures r.Success? ==> Meaning(env, sc, toks, args) == Some(r.value)
    ensures r.Success? ==>
        exists es: seq<Expr>, regs: Regs ::
          DerivesReturn(sc, es, toks) && Entered(regs, args) && r.value == EvalAll(env, regs, es)
  {
    hide Derives, DerivesReturn;
    hide RetStat, EvalAll, RunFrom, WFCode, NewFunction, CodeRep, ParseMore, ParseSub;
    var n := |sc.locals|;
    if n > LUAI_MAXVARS {
      return Failure(TooComplex);
    }
    if toks == [] || !toks[0].TRETURN? {
      return Failure(UnexpectedSymbol);
    }
    var fs := new FuncState(n);
    NewFunctionIs(n);
    var _ := fs.ReserveRegs(n);
    var ls := new LexState(env.ops, sc, fs, toks);
    NewFunctionStarts(env.ops, n);
    var _ :- RetStatement(ls);
    if ls.toks != [] {
      return Failure(UnexpectedSymbol);
    }
    ghost var es := ParseReturn(sc, toks, 0).value.0;
    ReturnReads(sc, es, toks);
    var env' := env.(k := fs.k);
    var r0 := ArgRegs(args);
    FunctionOk(env.ops, n, es, env', r0);
    EvalAllNoConsts(env, fs.k, r0, es);
    var res := Execute(fs.code, env', r0, fs.abs.code);
    return Success(res);
  }

  lemma NewFunctionIs(n: nat)
    ensures NewFunction(n) == CodeGen.ReserveRegs(Gen([], [], [], -1, 0, n, 2, true), n)
    ensures n <= LUAI_MAXVARS ==> NewFunction(n).ok
  {
  }

  lemma NewFunctionStarts(ops: Ops, n: nat)
    requires NegationKeepsNumbers(ops) && n <= LUAI_MAXVARS
    ensures var g := NewFunction(n);
            CanStart(ops, g) && g.freereg == g.nactvar == n
  {
  }
}
