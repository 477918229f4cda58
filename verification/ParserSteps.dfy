/** What the parser needs to know between two calls of the code generator. */
module ParserSteps {
  import opened Common
  import opened LuaValues
  import opened Opcodes
  import opened PartialCode
  import opened CodeGen
  import opened GenInvariant
  import opened ExpMeaning
  import opened RegisterLoads
  import opened Conditions
  import opened BinaryOperands
  import opened Operators
  import opened Compilation
  import opened GenSteps
  import opened JumpLists
  import opened LCode
  import opened Syntax

  ghost predicate CanStart(ops: Ops, g: Gen) {
    WFGen(g) && g.ok && g.nactvar <= g.freereg && NegationKeepsNumbers(ops)
  }

  /** The lexer produces numbers only. */
  ghost predicate GoodTokens(ops: Ops, ts: seq<Token>) {
    forall i :: 0 <= i < |ts| && ts[i].NUMBER? ==> !ops.isNaN(ts[i].n)
  }

  /** The structural half of CompileOk. */
  lemma CompileKeeps(ops: Ops, g: Gen, x: Expr)
    requires CanStart(ops, g) && WFExpr(ops, x, g.nactvar) && Compile(ops, g, x).0.ok
    ensures var (g', a) := Compile(ops, g, x);
            && Inv(ops, g', a, g.freereg) && Frame(g, NoExp(), g', a) && RawConst(g', a)
            && g'.nactvar == g.nactvar
  {
    hide RunFrom, Sem, Inv, Frame, Compile, Clean, WFGen, Start;
    var env := AnyEnv(ops, Compile(ops, g, x).0.consts);
    AnyRun(g, NoExp(), 0, -1, env);
    CompileOk(ops, g, x, env, map[]);
  }

  /** The state between the operands of a strict operator. */
  lemma StrictKeeps(ops: Ops, op: BinOpr, g1: Gen, a1: AExp, fr: int)
    requires Inv(ops, g1, a1, fr) && g1.nactvar <= fr && Infix(g1, op, a1).0.ok && !op.AND? && !op.OR?
    ensures var (g2, a2) := Infix(g1, op, a1);
            && WFGen(g2) && g2.ok && g2.nactvar <= g2.freereg && Frame(g1, a1, g2, NoExp())
            && Waiting(ops, g2, a2, fr, g2.freereg)
            && (!op.ARITH? ==> !a2.k.VKNUM?) && (op.CONCAT? ==> a2.k.VNONRELOC? && IsTemp(g2, a2.info))
  {
    hide RunFrom, Sem, Frame, Infix, Clean, WFCode, ListsOk, AllOpen, TargetsLabelled;
    var env := AnyEnv(ops, Infix(g1, op, a1).0.consts);
    AnyRun(g1, a1, fr, -1, env);
    InfixOk(ops, g1, a1, op, fr, env, map[], Any);
    var (g2, a2) := Infix(g1, op, a1);
    FrameSettled(g2, a2, NoExp());
    FrameTrans(g1, a1, g2, a2, g2, NoExp());
  }

  /** ... and between those of `and` (pass) or `or`. */
  lemma BranchKeeps(ops: Ops, pass: bool, g1: Gen, a1: AExp, fr: int)
    requires Inv(ops, g1, a1, fr) && RawConst(g1, a1) && g1.nactvar <= fr
        && Infix(g1, if pass then AND else OR, a1).0.ok
    ensures var (g2, a2) := Infix(g1, if pass then AND else OR, a1);
            && WFGen(g2) && g2.ok && g2.nactvar <= g2.freereg && g2.freereg == fr && Frame(g1, a1, g2, NoExp())
            && ListsOk(g2, a2) && (if pass then a2.t == [] else a2.f == [])
  {
    hide RunFrom, Sem, Frame, GoIfTrue, GoIfFalse, Clean, BranchSem, ListsOk, WFGen;
    var env := AnyEnv(ops, Infix(g1, if pass then AND else OR, a1).0.consts);
    AnyRun(g1, a1, fr, -1, env);
    GoIfOk(ops, g1, a1, pass, fr, -1, env, map[], Any);
    var (g2, a2) := Infix(g1, if pass then AND else OR, a1);
    FrameForgets(g1, a1, g2, a2.(k := VNONRELOC));
    KindFree(g2, a2);
  }

  lemma KindFree(g: Gen, a: AExp)
    requires ListsOk(g, a.(k := VNONRELOC))
    ensures ListsOk(g, a)
  {
  }

  lemma FrameForgets(g: Gen, a: AExp, g': Gen, a': AExp)
    requires Frame(g, a, g', a')
    ensures Frame(g, a, g', NoExp())
  {
    forall j | Outer(g, a, j) ensures Outer(g', NoExp(), j) && Control(g'.code, j) == Control(g.code, j) {
      assert Outer(g', a', j);
    }
  }

  /** The exits of the first operand, while the second is compiled. */
  lemma ExitsKept(g: Gen, a: AExp, pass: bool, c: seq<CInstr>, e: CExp, g': Gen, a': AExp, c': seq<CInstr>)
    requires ListsOk(g, a) && ListsRep(c, e, a) && CodeRep(c, g.code) && (if pass then a.t == [] else a.f == [])
    requires Frame(g, NoExp(), g', a') && LinksKept(g, NoExp(), c, c')
    ensures ListsRep(c', e, a) && ExitsWait(g', a, a', pass)
  {
    forall j | j in a.t || j in a.f ensures Outer(g, NoExp(), j) {
      assert j in Elems(a.t) || j in Elems(a.f);
      assert OpenAt(g.code, j);
    }
    forall j | (j in a.t || j in a.f) && j < |c| ensures j < |c'| && c'[j] == c[j] && Outer(g', a', j) {
      assert Outer(g, NoExp(), j);
    }
    ChainSame(c, c', e.t, a.t);
    ChainSame(c, c', e.f, a.f);
    hide Chain;
    var exits := if pass then a.f else a.t;
    forall j | j in exits ensures Outer(g', a', j) {
      assert Outer(g, NoExp(), j);
    }
  }

  // ----- what is read stays well formed -----

  lemma NumberToken(ops: Ops, ts: seq<Token>)
    requires GoodTokens(ops, ts) && ts != []
    ensures ts[0].NUMBER? ==> !ops.isNaN(ts[0].n)
  {
  }

  lemma TailTokens(ops: Ops, ts: seq<Token>, n: nat)
    requires GoodTokens(ops, ts) && n <= |ts|
    ensures GoodTokens(ops, ts[n..])
  {
  }

  ghost predicate GoodParse(ops: Ops, n: nat, p: Parsed) {
    p.Some? ==> WFExpr(ops, p.value.0, n) && GoodTokens(ops, p.value.1)
  }

  lemma {:induction false} SubGood(ops: Ops, sc: Scope, ts: seq<Token>, limit: nat, level: nat)
    requires GoodTokens(ops, ts)
    ensures GoodParse(ops, |sc.locals|, ParseSub(sc, ts, limit, level))
    decreases |ts|, 4
  {
    hide GoodTokens, ParseLoop, ParseOperand;
    if level < LUAI_MAXCCALLS && ts != [] {
      OperandGood(ops, sc, ts, level + 1);
      var p := ParseOperand(sc, ts, level + 1);
      if p.Some? { LoopGood(ops, sc, p.value.0, p.value.1, limit, level + 1); }
    }
  }

  lemma {:induction false} OperandGood(ops: Ops, sc: Scope, ts: seq<Token>, level: nat)
    requires GoodTokens(ops, ts) && ts != []
    ensures GoodParse(ops, |sc.locals|, ParseOperand(sc, ts, level))
    decreases |ts|, 3
  {
    hide GoodTokens, ParseSub, ParseSimple;
    if GetUnOpr(ts[0]).Some? {
      TailTokens(ops, ts, 1);
      SubGood(ops, sc, ts[1..], UNARY_PRIORITY, level);
    } else {
      SimpleGood(ops, sc, ts, level);
    }
  }

  lemma {:induction false} LoopGood(ops: Ops, sc: Scope, x: Expr, ts: seq<Token>, limit: nat, level: nat)
    requires GoodTokens(ops, ts) && WFExpr(ops, x, |sc.locals|)
    ensures GoodParse(ops, |sc.locals|, ParseLoop(sc, x, ts, limit, level))
    decreases |ts|, 5
  {
    hide GoodTokens, ParseSub;
    if ts != [] && GetBinOpr(ts[0]).Some? && Left(GetBinOpr(ts[0]).value) > limit {
      var op := GetBinOpr(ts[0]).value;
      TailTokens(ops, ts, 1);
      SubGood(ops, sc, ts[1..], Right(op), level);
      var p := ParseSub(sc, ts[1..], Right(op), level);
      if p.Some? { LoopGood(ops, sc, EBin(op, x, p.value.0), p.value.1, limit, level); }
    }
  }

  lemma {:induction false} SimpleGood(ops: Ops, sc: Scope, ts: seq<Token>, level: nat)
    requires GoodTokens(ops, ts) && ts != []
    ensures GoodParse(ops, |sc.locals|, ParseSimple(sc, ts, level))
    decreases |ts|, 2
  {
    TailTokens(ops, ts, 1);
    var p := ParsePrefix(sc, ts, level);
    PrefixGood(ops, sc, ts, level);
    hide GoodTokens, ParsePrefix, ParseSuffixes;
    if p.Some? { SuffixesGood(ops, sc, p.value.0, p.value.1, level); }
  }

  lemma {:induction false} PrefixGood(ops: Ops, sc: Scope, ts: seq<Token>, level: nat)
    requires GoodTokens(ops, ts) && ts != []
    ensures GoodParse(ops, |sc.locals|, ParsePrefix(sc, ts, level))
    decreases |ts|, 1
  {
    hide GoodTokens, ParseSub;
    TailTokens(ops, ts, 1);
    if ts[0].LPAREN? {
      SubGood(ops, sc, ts[1..], 0, level);
      var p := ParseSub(sc, ts[1..], 0, level);
      if p.Some? && p.value.1 != [] { TailTokens(ops, p.value.1, 1); }
    }
  }

  lemma {:induction false} SuffixesGood(ops: Ops, sc: Scope, x: Expr, ts: seq<Token>, level: nat)
    requires GoodTokens(ops, ts) && WFExpr(ops, x, |sc.locals|)
    ensures GoodParse(ops, |sc.locals|, ParseSuffixes(sc, x, ts, level))
    decreases |ts|, 2
  {
    hide GoodTokens, ParseSub;
    if ts != [] && ts[0].DOT? && |ts| >= 2 && ts[1].NAME? {
      TailTokens(ops, ts, 2);
      SuffixesGood(ops, sc, EIndex(x, EStr(ts[1].s)), ts[2..], level);
    } else if ts != [] && ts[0].LBRACKET? {
      TailTokens(ops, ts, 1);
      SubGood(ops, sc, ts[1..], 0, level);
      var p := ParseSub(sc, ts[1..], 0, level);
      if p.Some? && p.value.1 != [] && p.value.1[0].RBRACKET? {
        TailTokens(ops, p.value.1, 1);
        SuffixesGood(ops, sc, EIndex(x, p.value.0), p.value.1[1..], level);
      }
    }
  }

  // ----- errors of the code generator are final -----

  lemma {:induction false} LoopGrows(ops: Ops, g: Gen, sc: Scope, x: Expr, ts: seq<Token>, limit: nat, level: nat)
    ensures var p := ParseLoop(sc, x, ts, limit, level);
            p.Some? && Compile(ops, g, p.value.0).0.ok ==> Compile(ops, g, x).0.ok
    decreases |ts|
  {
    hide ParseSub, Compile, Infix, Posfix;
    if ts != [] && GetBinOpr(ts[0]).Some? && Left(GetBinOpr(ts[0]).value) > limit {
      var op := GetBinOpr(ts[0]).value;
      var p := ParseSub(sc, ts[1..], Right(op), level);
      if p.Some? {
        LoopGrows(ops, g, sc, EBin(op, x, p.value.0), p.value.1, limit, level);
        CompileBinary(ops, g, op, x, p.value.0);
      }
    }
  }

  lemma {:induction false} SuffixesGrow(ops: Ops, g: Gen, sc: Scope, x: Expr, ts: seq<Token>, level: nat)
    ensures var p := ParseSuffixes(sc, x, ts, level);
            p.Some? && Compile(ops, g, p.value.0).0.ok ==> Compile(ops, g, x).0.ok
    decreases |ts|
  {
    hide ParseSub, Compile, Exp2AnyReg, Exp2Val, Indexed;
    if ts != [] && ts[0].DOT? && |ts| >= 2 && ts[1].NAME? {
      SuffixesGrow(ops, g, sc, EIndex(x, EStr(ts[1].s)), ts[2..], level);
      CompileField(ops, g, x, ts[1].s);
    } else if ts != [] && ts[0].LBRACKET? {
      var p := ParseSub(sc, ts[1..], 0, level);
      if p.Some? && p.value.1 != [] && p.value.1[0].RBRACKET? {
        SuffixesGrow(ops, g, sc, EIndex(x, p.value.0), p.value.1[1..], level);
        CompileIndexed(ops, g, x, p.value.0);
      }
    }
  }

  function InitCExp(k: Kind, info: int): CExp {
    Exp(k, info, 0, Num(0), NO_JUMP, NO_JUMP)
  }

  lemma InitRep(c: seq<CInstr>, k: Kind, info: int)
    requires !k.VJMP?
    ensures ExpRep(c, InitCExp(k, info), InitExp(k, info))
    ensures forall n :: ExpRep(c, InitCExp(k, info).(nval := n), InitExp(k, info).(nval := n))
  {
  }

  lemma ParenGrows(ops: Ops, g: Gen, x: Expr)
    ensures Compile(ops, g, EParen(x)).0.ok ==> Compile(ops, g, x).0.ok
  {
    hide DischargeVars, Compile;
    CompileParenIs(ops, g, x);
  }

  lemma UnGrows(ops: Ops, g: Gen, op: UnOpr, x: Expr)
    ensures Compile(ops, g, EUn(op, x)).0.ok ==> Compile(ops, g, x).0.ok
  {
    hide Prefix, Compile;
    CompileUnIs(ops, g, op, x);
  }

  // ----- indexing -----

  /** t.name: the key is a string constant already. */
  lemma CompileField(ops: Ops, g: Gen, t: Expr, s: string)
    ensures var (g1, e1) := Compile(ops, g, t);
            var (g2, e2) := Exp2AnyReg(g1, e1);
            var (g3, k) := Compile(ops, g2, EStr(s));
            && Compile(ops, g, EIndex(t, EStr(s))) == Indexed(g3, e2, k)
            && (Indexed(g3, e2, k).0.ok ==> g3.ok && g2.ok && g1.ok)
  {
    hide AddK, Exp2AnyReg, Prefix, Infix, Posfix, Exp2RK;
  }

  lemma CompileIndexed(ops: Ops, g: Gen, t: Expr, k: Expr)
    ensures var (g1, e1) := Compile(ops, g, t);
            var (g2, e2) := Exp2AnyReg(g1, e1);
            var (g3, k1) := Compile(ops, g2, k);
            var (g4, k2) := Exp2Val(g3, k1);
            && Compile(ops, g, EIndex(t, k)) == Indexed(g4, e2, k2)
            && (Indexed(g4, e2, k2).0.ok ==> g4.ok && g3.ok && g2.ok && g1.ok)
  {
    hide AddK, Exp2AnyReg, Exp2Val, DischargeVars, Prefix, Infix, Posfix, Exp2RK;
  }

  lemma IndexKeeps(ops: Ops, g1: Gen, a1: AExp, fr: int)
    requires Inv(ops, g1, a1, fr) && g1.nactvar <= fr && Exp2AnyReg(g1, a1).0.ok && NegationKeepsNumbers(ops)
    ensures var (g2, a2) := Exp2AnyReg(g1, a1);
            && CanStart(ops, g2) && g2.nactvar == g1.nactvar && Frame(g1, a1, g2, NoExp())
            && Waiting(ops, g2, a2, fr, g2.freereg)
  {
    hide RunFrom, Frame, Exp2AnyReg, WFCode, ListsOk, AllOpen, TargetsLabelled;
    Exp2AnyRegKeeps(ops, g1, a1, fr);
    var (g2, a2) := Exp2AnyReg(g1, a1);
    FrameSettled(g2, a2, NoExp());
    FrameTrans(g1, a1, g2, a2, g2, NoExp());
  }

  // ----- binary operators -----

  lemma CompileBinary(ops: Ops, g: Gen, op: BinOpr, a: Expr, b: Expr)
    ensures var (g1, e1) := Compile(ops, g, a);
            var (g2, e2) := Infix(g1, op, e1);
            var (g3, e3) := Compile(ops, g2, b);
            && Compile(ops, g, EBin(op, a, b)) == Posfix(ops, g3, op, e2, e3)
            && (Posfix(ops, g3, op, e2, e3).0.ok ==> g3.ok && g2.ok && g1.ok)
  {
    hide AddK, Exp2AnyReg, Exp2Val, Indexed, DischargeVars, Prefix, Infix, Posfix, Exp2RK;
  }

  lemma InfixKeeps(ops: Ops, op: BinOpr, g1: Gen, a1: AExp, fr: int)
    requires Inv(ops, g1, a1, fr) && RawConst(g1, a1) && g1.nactvar <= fr && Infix(g1, op, a1).0.ok
        && NegationKeepsNumbers(ops)
    ensures var (g2, a2) := Infix(g1, op, a1);
            CanStart(ops, g2) && g2.nactvar == g1.nactvar && Frame(g1, a1, g2, NoExp())
  {
    hide Infix, Inv, Frame, WFGen, ListsOk, RawConst;
    if op.AND? {
      BranchKeeps(ops, true, g1, a1, fr);
    } else if op.OR? {
      BranchKeeps(ops, false, g1, a1, fr);
    } else {
      StrictKeeps(ops, op, g1, a1, fr);
    }
  }

  /** The first operand, once the second one has been compiled. */
  lemma OperandsReady(ops: Ops, op: BinOpr, g1: Gen, a1: AExp, fr: int, c2: seq<CInstr>, e1: CExp, y: Expr,
      c3: seq<CInstr>)
    requires Inv(ops, g1, a1, fr) && RawConst(g1, a1) && g1.nactvar <= fr && Infix(g1, op, a1).0.ok
        && NegationKeepsNumbers(ops)
    requires var (g2, a2) := Infix(g1, op, a1);
             && CodeRep(c2, g2.code) && ListsRep(c2, e1, a2) && (!op.AND? && !op.OR? ==> ExpRep(c2, e1, a2))
             && WFExpr(ops, y, g2.nactvar) && Compile(ops, g2, y).0.ok && LinksKept(g2, NoExp(), c2, c3)
    ensures var (g2, a2) := Infix(g1, op, a1);
            var (g3, a3) := Compile(ops, g2, y);
            FirstReady(ops, op, g3, c3, e1, a2, a3, fr, g2.freereg) && Inv(ops, g3, a3, g2.freereg)
                && Frame(g2, NoExp(), g3, a3)
  {
    hide Infix, Inv, Frame, WFGen, ListsOk, RawConst, LinksKept, CodeRep, Compile, ExitsWait, ListsRep, Waiting, WFExpr;
    InfixKeeps(ops, op, g1, a1, fr);
    var (g2, a2) := Infix(g1, op, a1);
    CompileKeeps(ops, g2, y);
    var (g3, a3) := Compile(ops, g2, y);
    if op.AND? || op.OR? {
      BranchKeeps(ops, op.AND?, g1, a1, fr);
      ExitsKept(g2, a2, op.AND?, c2, e1, g3, a3, c3);
    } else {
      StrictKeeps(ops, op, g1, a1, fr);
      WaitingStill(ops, g2, g3, a2, fr, g2.freereg);
      WaitingRep(ops, g2, a2, fr, g2.freereg, c2, c3, e1);
    }
  }

  lemma WFNested(ops: Ops, op: UnOpr, x: Expr, n: nat)
    requires WFExpr(ops, x, n)
    ensures WFExpr(ops, EParen(x), n) && WFExpr(ops, EUn(op, x), n)
  {
  }

  lemma WFBinary(ops: Ops, op: BinOpr, x: Expr, y: Expr, n: nat)
    requires WFExpr(ops, x, n) && WFExpr(ops, y, n)
    ensures WFExpr(ops, EBin(op, x, y), n) && WFExpr(ops, EIndex(x, y), n)
  {
  }

  /** Compiling the first operand and luaK_infix. */
  lemma FirstOperandKeeps(ops: Ops, op: BinOpr, g0: Gen, x: Expr)
    requires CanStart(ops, g0) && WFExpr(ops, x, g0.nactvar) && Compile(ops, g0, x).0.ok
    ensures var (g1, a1) := Compile(ops, g0, x);
            var (g2, a2) := Infix(g1, op, a1);
            && Inv(ops, g1, a1, g0.freereg) && Frame(g0, NoExp(), g1, a1)
            && (g2.ok ==> CanStart(ops, g2) && g2.nactvar == g0.nactvar && Frame(g1, a1, g2, NoExp()))
  {
    hide Infix, Inv, Frame, WFGen, Compile, WFExpr, RawConst;
    CompileKeeps(ops, g0, x);
    var (g1, a1) := Compile(ops, g0, x);
    if Infix(g1, op, a1).0.ok { InfixKeeps(ops, op, g1, a1, g0.freereg); }
  }

  /** Between the operands of a binary operator: x was compiled from g0 on, giving code c1,
      and luaK_infix has made e1 of its descriptor. */
  ghost predicate Infixed(ops: Ops, op: BinOpr, g0: Gen, c0: seq<CInstr>, x: Expr, c1: seq<CInstr>, c2: seq<CInstr>,
      e1: CExp) {
    && CanStart(ops, g0) && WFExpr(ops, x, g0.nactvar) && Compile(ops, g0, x).0.ok
    && var (g1, a1) := Compile(ops, g0, x);
       var (g2, a2) := Infix(g1, op, a1);
       && g2.ok && CodeRep(c2, g2.code) && ListsRep(c2, e1, a2) && (!op.AND? && !op.OR? ==> ExpRep(c2, e1, a2))
       && LinksKept(g0, NoExp(), c0, c1) && LinksKept(g1, a1, c1, c2)
  }

  lemma SecondOperandKeeps(ops: Ops, op: BinOpr, g0: Gen, c0: seq<CInstr>, x: Expr, c1: seq<CInstr>, c2: seq<CInstr>,
      e1: CExp, y: Expr, c3: seq<CInstr>)
    requires Infixed(ops, op, g0, c0, x, c1, c2, e1)
    requires var (g1, a1) := Compile(ops, g0, x);
             var (g2, a2) := Infix(g1, op, a1);
             WFExpr(ops, y, g0.nactvar) && Compile(ops, g2, y).0.ok && LinksKept(g2, NoExp(), c2, c3)
    ensures var (g1, a1) := Compile(ops, g0, x);
            var (g2, a2) := Infix(g1, op, a1);
            var (g3, a3) := Compile(ops, g2, y);
            && FirstReady(ops, op, g3, c3, e1, a2, a3, g0.freereg, g2.freereg) && Inv(ops, g3, a3, g2.freereg)
            && WFExpr(ops, EBin(op, x, y), g0.nactvar)
            && LinksKept(g0, NoExp(), c0, c3) && Frame(g0, NoExp(), g3, a3)
  {
    hide Infix, Inv, Frame, WFGen, Compile, WFExpr, RawConst, CodeRep, ListsRep, ExpRep, LinksKept, FirstReady;
    CompileKeeps(ops, g0, x);
    FirstOperandKeeps(ops, op, g0, x);
    var (g1, a1) := Compile(ops, g0, x);
    var (g2, a2) := Infix(g1, op, a1);
    var (g3, a3) := Compile(ops, g2, y);
    OperandsReady(ops, op, g1, a1, g0.freereg, c2, e1, y, c3);
    WFBinary(ops, op, x, y, g0.nactvar);
    LinksTrans(g1, a1, c1, g2, NoExp(), c2, c3);
    LinksTrans(g0, NoExp(), c0, g1, a1, c1, c3);
    FrameTrans(g0, NoExp(), g1, a1, g2, NoExp());
    FrameTrans(g0, NoExp(), g2, NoExp(), g3, a3);
  }

  /** Compiling an indexed expression and putting it into a register. */
  lemma IndexFirstKeeps(ops: Ops, g0: Gen, x: Expr)
    requires CanStart(ops, g0) && WFExpr(ops, x, g0.nactvar) && Compile(ops, g0, x).0.ok
    ensures var (g1, a1) := Compile(ops, g0, x);
            var (g2, a2) := Exp2AnyReg(g1, a1);
            && Inv(ops, g1, a1, g0.freereg) && Frame(g0, NoExp(), g1, a1)
            && (g2.ok ==> CanStart(ops, g2) && g2.nactvar == g0.nactvar && Frame(g1, a1, g2, NoExp())
                          && Waiting(ops, g2, a2, g0.freereg, g2.freereg))
  {
    hide Exp2AnyReg, Inv, Frame, WFGen, Compile, WFExpr, RawConst, Waiting;
    CompileKeeps(ops, g0, x);
    var (g1, a1) := Compile(ops, g0, x);
    if Exp2AnyReg(g1, a1).0.ok { IndexKeeps(ops, g1, a1, g0.freereg); }
  }

  lemma FieldKeyKeeps(ops: Ops, g0: Gen, g2: Gen, x: Expr, a2: AExp, fr: int, s: string)
    requires CanStart(ops, g2) && Waiting(ops, g2, a2, fr, g2.freereg) && Compile(ops, g2, EStr(s)).0.ok
    requires WFExpr(ops, x, g0.nactvar)
    ensures var (g3, a3) := Compile(ops, g2, EStr(s));
            && Inv(ops, g3, a3, g2.freereg) && Frame(g2, NoExp(), g3, a3) && Waiting(ops, g3, a2, fr, g2.freereg)
            && WFExpr(ops, EIndex(x, EStr(s)), g0.nactvar)
  {
    hide Inv, Frame, WFGen, Compile, RawConst, Waiting;
    CompileKeeps(ops, g2, EStr(s));
    WaitingStill(ops, g2, Compile(ops, g2, EStr(s)).0, a2, fr, g2.freereg);
  }
}
