/** Binary and unary operators: codearith, codecomp, luaK_prefix, luaK_posfix. */
module Operators {
  import opened Common
  import opened LuaValues
  import opened Opcodes
  import opened PartialCode
  import opened CodeGen
  import opened GenInvariant
  import opened ExpMeaning
  import opened RegisterLoads
  import opened Operands
  import opened BinaryOperands

  /** The context after applying a strict operator to the first operand's value. */
  ghost function BinCtx(env: Env, op: BinOpr, x: Ctx, b: Expr): Ctx
    requires !op.AND? && !op.OR?
  {
    match x
    case Any => Any
    case Dead(o) => Dead(o)
    case Live(r0, None) => Live(r0, None)
    case Live(r0, Some(v1)) =>
      match Eval(env, r0, b)
      case None => Live(r0, None)
      case Some(v2) => Live(r0, StrictBin(env.ops, op, v1, v2))
  }

  /** Operands in place and their registers free again. */
  ghost predicate PairReady(ops: Ops, g: Gen, o1: int, o2: int, fr: int, env: Env, r: Regs, x: Ctx, b: Expr) {
    && WFGen(g) && g.ok && g.freereg == fr && g.nactvar <= fr < MAXSTACK
    && PairSem(g, o1, o2, fr, env, r, x, b) && env.ops == ops
  }

  lemma NoJumpLists(g: Gen, e: AExp)
    requires !HasJumps(e)
    ensures ListsOk(g, e)
  {
  }

  /** An instruction computing the operator, left relocatable. */
  lemma RelocPair(ops: Ops, g: Gen, e: AExp, i: AInstr, op: BinOpr, o1: int, o2: int, fr: int, env: Env, r: Regs,
      x: Ctx, b: Expr)
    requires PairReady(ops, g, o1, o2, fr, env, r, x, b) && !HasJumps(e) && !e.k.VJMP?
    requires IsReloc(i) && Emit(g, i).ok && (i.Concat? ==> fr == i.b <= i.c)
    requires !op.AND? && !op.OR?
    requires forall r3 :: RelocValue(env, i, r3) == StrictBin(ops, op, RK(env, r3, o1), RK(env, r3, o2))
    ensures var g' := Emit(g, i);
            var e' := e.(info := |g.code|, k := VRELOCABLE);
            Inv(ops, g', e', fr) && Sem(g', e', fr, -1, env, r, BinCtx(env, op, x, b)) && Frame(g, e, g', e')
  {
    NoJumpLists(g, e);
    EmitReloc(ops, g, e, i, fr);
    EmitWF(g, i);
    EmitRun(g, i, env, r);
    var g' := Emit(g, i);
    var e' := e.(info := |g.code|, k := VRELOCABLE);
    assert CodeOutcome(g', e', env, r) == At(g, env, r);
    assert forall r3 :: ValueHere(g', e', env, r3) == RelocValue(env, i, r3);
    hide RunFrom, At, Emit, WFGen, CodeOutcome, Inv, RK, RelocValue, ValueHere;
  }

  lemma CompareInv(ops: Ops, g: Gen, e: AExp, i: AInstr, fr: int)
    requires WFGen(g) && g.ok && g.freereg == fr && g.nactvar <= fr < MAXSTACK && !HasJumps(e) && !e.k.VJMP?
    requires i.Cmp? && CondJump(g, i).0.ok
    ensures var (g', l) := CondJump(g, i);
            var e' := e.(info := |g.code| + 1, k := VJMP);
            l == [|g.code| + 1] && Inv(ops, g', e', fr) && Frame(g, e, g', e')
  {
    CondJumpWF(g, i);
    var (g', l) := CondJump(g, i);
    hide CondJump, RunFrom, WFCode;
    NoJumpLists(g', e.(info := |g.code| + 1, k := VJMP));
  }

  /** A comparison and the jump it controls. */
  lemma ComparePair(ops: Ops, g: Gen, e: AExp, i: AInstr, op: BinOpr, o1: int, o2: int, fr: int, env: Env, r: Regs,
      x: Ctx, b: Expr)
    requires PairReady(ops, g, o1, o2, fr, env, r, x, b) && !HasJumps(e) && !e.k.VJMP?
    requires i.Cmp? && CondJump(g, i).0.ok
    requires !op.AND? && !op.OR?
    requires forall r3 :: StrictBin(ops, op, RK(env, r3, o1), RK(env, r3, o2)) == ToValue(TestTaken(env, i, r3))
    ensures var (g', l) := CondJump(g, i);
            var e' := e.(info := |g.code| + 1, k := VJMP);
            && l == [|g.code| + 1]
            && Inv(ops, g', e', fr) && Sem(g', e', fr, -1, env, r, BinCtx(env, op, x, b)) && Frame(g, e, g', e')
  {
    CompareInv(ops, g, e, i, fr);
    CondJumpWF(g, i);
    CondJumpRun(g, i, env, r);
    var (g', l) := CondJump(g, i);
    var e' := e.(info := |g.code| + 1, k := VJMP);
    assert CodeOutcome(g', e', env, r) == At(g', env, r);
    hide RunFrom, At, WFGen, CodeOutcome, Inv, RK, TestTaken, CondJump;
  }

  // ----- posfix -----

  lemma FreeExpIs(g: Gen, e: AExp)
    ensures FreeExp(g, e) == g.(freereg := g.freereg - (if e.k.VNONRELOC? then TempCount(g, e.info) else 0))
  {
  }

  /** Both operands of a strict operator, first operand compiled at g2 and kept in e2,
      second compiled at g3 into e3. */
  ghost predicate Ready2(ops: Ops, g2: Gen, e2: AExp, fr: int, g3: Gen, e3: AExp, env: Env, r: Regs, x: Ctx, b: Expr) {
    && Kept(ops, g2, e2, fr) && Sem(g2, e2, fr, -1, env, r, x)
    && Inv(ops, g3, e3, g2.freereg) && Sem(g3, e3, g2.freereg, -1, env, r, Start(g2, env, r, b))
    && WFExpr(ops, b, g2.nactvar) && env.ops == ops && g3.nactvar == g2.nactvar && g2.consts <= g3.consts
    && Clean(g3, r)
  }

  /** Both operands settled at g5; freeing them leaves `fr` the first free register. */
  ghost predicate BothSettled(ops: Ops, g3: Gen, e3: AExp, e4: AExp, o2: int, g5: Gen, e5: AExp, o1: int, fr: int,
      env: Env, r: Regs, x: Ctx, b: Expr) {
    && WFGen(g5) && g5.ok && g5.nactvar <= fr < MAXSTACK && g5.nactvar == g3.nactvar
    && PairSem(g5, o1, o2, fr, env, r, x, b)
    && !HasJumps(e5) && !e5.k.VJMP? && Frame(g3, e3, g5, e5)
    && FreeExp(FreeExp(g5, e5), e4).freereg == fr && FreeExp(FreeExp(g5, e4), e5).freereg == fr
  }

  lemma NumeralFreed(ops: Ops, g4: Gen, e4: AExp, o2: int, fr: int, g5: Gen, e5: AExp, o1: int)
    requires Inv(ops, g4, e4, fr) && Settled(g4, e4, o2) && Inv(ops, g5, e5, g4.freereg) && Settled(g5, e5, o1)
    requires g5.nactvar == g4.nactvar
    ensures WFGen(g5) && g5.ok && g5.nactvar <= fr < MAXSTACK && !HasJumps(e5) && !e5.k.VJMP?
    ensures FreeExp(FreeExp(g5, e5), e4).freereg == fr && FreeExp(FreeExp(g5, e4), e5).freereg == fr
  {
    hide WFCode, ListsOk, AllOpen, TargetsLabelled;
  }

  lemma NumeralThenSettled(ops: Ops, g2: Gen, e2: AExp, fr: int, g3: Gen, e3: AExp, g4: Gen, e4: AExp, o2: int,
      env: Env, r: Regs, x: Ctx, b: Expr)
    requires Ready2(ops, g2, e2, fr, g3, e3, env, r, x, b) && e2.k.VKNUM? && g4.nactvar == g2.nactvar
        && g2.consts <= g4.consts
    requires Inv(ops, g4, e4, g2.freereg) && Settled(g4, e4, o2) && Frame(g3, e3, g4, e4)
    requires Sem(g4, e4, g2.freereg, -1, env, r, Start(g2, env, r, b))
    requires Exp2RK(g4, e2).0.ok && Exp2RK(g4, e2).0.consts <= env.k
    ensures var (g5, e5, o1) := Exp2RK(g4, e2);
            BothSettled(ops, g3, e3, e4, o2, g5, e5, o1, fr, env, r, x, b)
  {
    hide RunFrom, WFGen, Frame, Sem, PairSem, Exp2RK, Inv, Settled, FreeExp, Start;
    var (g5, e5, o1) := Exp2RK(g4, e2);
    NumeralReg(ops, g2, e2, fr);
    PairNumeral(ops, g2, e2, fr, x, g4, e4, o2, env, r, b);
    NumeralFreed(ops, g4, e4, o2, fr, g5, e5, o1);
    FrameTrans(g3, e3, g4, e4, g5, e5);
  }

  lemma NumeralReg(ops: Ops, g: Gen, e: AExp, fr: int)
    requires Kept(ops, g, e, fr) && e.k.VKNUM?
    ensures g.freereg == fr
  {
    hide WFGen, ListsOk;
  }

  lemma KeptThenSettled(ops: Ops, g2: Gen, e2: AExp, fr: int, g3: Gen, e3: AExp, g4: Gen, e4: AExp, o2: int, env: Env,
      r: Regs, x: Ctx, b: Expr)
    requires Ready2(ops, g2, e2, fr, g3, e3, env, r, x, b) && !e2.k.VKNUM? && g4.nactvar == g2.nactvar
        && g2.consts <= g4.consts <= env.k
    requires Inv(ops, g4, e4, g2.freereg) && Settled(g4, e4, o2) && Frame(g3, e3, g4, e4)
    requires Sem(g4, e4, g2.freereg, -1, env, r, Start(g2, env, r, b))
    ensures BothSettled(ops, g3, e3, e4, o2, g4, e2, KeptRK(e2), fr, env, r, x, b)
  {
    hide RunFrom, WFCode, AllOpen, TargetsLabelled, Apart, CondList, Frame, Sem, PairSem;
    PairSettled(ops, g2, e2, fr, x, g4, e4, o2, env, r, b);
    FrameSettled(g4, e4, e2);
    FrameTrans(g3, e3, g4, e4, g4, e2);
  }

  lemma FreePair(ops: Ops, g3: Gen, e3: AExp, e4: AExp, o2: int, g5: Gen, e5: AExp, o1: int, fr: int, env: Env,
      r: Regs, x: Ctx, b: Expr)
    requires BothSettled(ops, g3, e3, e4, o2, g5, e5, o1, fr, env, r, x, b) && env.ops == ops
    ensures var g6 := FreeExps(g5, e5, o1, e4, o2);
            && g6 == g5.(freereg := fr) && g6 == FreeExp(FreeExp(g5, e4), e5)
            && PairReady(ops, g6, o1, o2, fr, env, r, x, b) && Frame(g3, e3, g6, e5)
  {
    hide RunFrom, WFCode, AllOpen, TargetsLabelled, Frame, PairSem;
    FreeExpIs(g5, e5);
    FreeExpIs(g5, e4);
    PairRegs(g5, fr, o1, o2, fr, env, r, x, b);
    FrameRegs(g3, e3, g5, e5, fr);
  }

  /** codearith's operands: the second is settled first, then the first. */
  lemma ArithOperands(ops: Ops, g2: Gen, e2: AExp, fr: int, g3: Gen, e3: AExp, env: Env, r: Regs, x: Ctx, b: Expr)
    requires Ready2(ops, g2, e2, fr, g3, e3, env, r, x, b)
    requires var (g4, e4, o2) := Exp2RK(g3, e3);
             var (g5, e5, o1) := Exp2RK(g4, e2);
             g5.ok && g5.consts <= env.k
    ensures var (g4, e4, o2) := Exp2RK(g3, e3);
            var (g5, e5, o1) := Exp2RK(g4, e2);
            && BothSettled(ops, g3, e3, e4, o2, g5, e5, o1, fr, env, r, x, b)
            && (!e2.k.VKNUM? ==> g5 == g4 && e5 == e2 && o1 == KeptRK(e2))
  {
    hide RunFrom, WFGen, ListsOk, Frame, Sem, BothSettled;
    var (g4, e4, o2) := Exp2RK(g3, e3);
    var (g5, e5, o1) := Exp2RK(g4, e2);
    assert Grows(g4, g5);
    if !e2.k.VKNUM? { KeptAgain(g4, e2); }
    hide Exp2RK;
    Exp2RKOk(ops, g3, e3, g2.freereg, -1, env, r, Start(g2, env, r, b));
    if e2.k.VKNUM? {
      NumeralThenSettled(ops, g2, e2, fr, g3, e3, g4, e4, o2, env, r, x, b);
    } else {
      KeptThenSettled(ops, g2, e2, fr, g3, e3, g4, e4, o2, env, r, x, b);
    }
  }

  /** An operand already settled is not touched again. */
  lemma KeptAgain(g: Gen, e: AExp)
    requires !HasJumps(e) && (e.k.VNONRELOC? || (e.k.VK? && e.info <= MAXINDEXRK))
    ensures Exp2RK(g, e) == (g, e, KeptRK(e))
  {
  }

  lemma FrameSettled(g: Gen, e4: AExp, e2: AExp)
    requires !HasJumps(e4) && !e4.k.VJMP? && !HasJumps(e2) && !e2.k.VJMP?
    ensures Frame(g, e4, g, e2)
  {
  }

  lemma PairRegs(g: Gen, freereg: int, o1: int, o2: int, fr: int, env: Env, r: Regs, x: Ctx, b: Expr)
    requires PairSem(g, o1, o2, fr, env, r, x, b)
    ensures PairSem(g.(freereg := freereg), o1, o2, fr, env, r, x, b)
  {
    hide RunFrom;
  }

  lemma FrameRegs(g0: Gen, e0: AExp, g: Gen, e: AExp, freereg: int)
    requires Frame(g0, e0, g, e)
    ensures Frame(g0, e0, g.(freereg := freereg), e)
  {
  }

  ghost predicate BinDone(ops: Ops, g3: Gen, e3: AExp, res: (Gen, AExp), fr: int, env: Env, r: Regs, x: Ctx) {
    && Inv(ops, res.0, res.1, fr) && Sem(res.0, res.1, fr, -1, env, r, x) && Frame(g3, e3, res.0, res.1)
    && !res.1.k.VK?
  }

  lemma NumeralHere(g: Gen, e: AExp, env: Env, r: Regs)
    requires e.k.VKNUM?
    ensures CodeOutcome(g, e, env, r) == At(g, env, r)
    ensures forall r1 :: ValueHere(g, e, env, r1) == Some(Number(e.nval))
  {
    hide At;
  }

  lemma FoldedInv(ops: Ops, g2: Gen, e2: AExp, fr: int, g3: Gen, e3: AExp, op: ArithOp)
    requires Kept(ops, g2, e2, fr) && Inv(ops, g3, e3, g2.freereg) && FoldArith(ops, op, e2, e3).Some?
        && g3.nactvar == g2.nactvar
    ensures var e' := e2.(nval := FoldArith(ops, op, e2, e3).value);
            && Inv(ops, g3, e', fr) && Frame(g3, e3, g3, e') && IsNumeral(e2) && IsNumeral(e3) && IsNumeral(e')
            && g2.nactvar <= fr == g2.freereg && forall j :: Outer(g3, e3, j) ==> Outer(g3, e', j)
  {
    hide WFGen;
    FrameSettled(g3, e3, e2.(nval := FoldArith(ops, op, e2, e3).value));
  }

  lemma FoldedValue(ops: Ops, op: ArithOp, e1: AExp, e2: AExp)
    requires FoldArith(ops, op, e1, e2).Some?
    ensures StrictBin(ops, ARITH(op), Number(e1.nval), Number(e2.nval)) ==
        Some(Number(FoldArith(ops, op, e1, e2).value))
  {
  }

  lemma FoldedSem(ops: Ops, g2: Gen, e2: AExp, fr: int, g3: Gen, e3: AExp, op: ArithOp, env: Env, r: Regs, x: Ctx,
      b: Expr)
    requires Ready2(ops, g2, e2, fr, g3, e3, env, r, x, b) && FoldArith(ops, op, e2, e3).Some?
    ensures BinDone(ops, g3, e3, (g3, e2.(nval := FoldArith(ops, op, e2, e3).value)), fr, env, r,
        BinCtx(env, ARITH(op), x, b))
  {
    hide At, CodeOutcome, ValueHere, Inv, FoldArith, StrictBin, Frame;
    var e' := e2.(nval := FoldArith(ops, op, e2, e3).value);
    FoldedInv(ops, g2, e2, fr, g3, e3, op);
    FoldedValue(ops, op, e2, e3);
    NumeralHere(g2, e2, env, r);
    NumeralHere(g3, e3, env, r);
    NumeralHere(g3, e', env, r);
    var o2 := At(g2, env, r);
    match x
    case Live(r0, _) =>
      if o2.Reach? { EvalSame(env, r0, o2.regs, b, g2.nactvar); }
    case _ =>
  }

  lemma ArithReloc(env: Env, op: ArithOp, o1: int, o2: int)
    ensures forall r3 ::
        RelocValue<Dest>(env, Arith(op, 0, o1, o2), r3) ==
        StrictBin(env.ops, ARITH(op), RK(env, r3, o1), RK(env, r3, o2))
  {
  }

  lemma BothPlain(ops: Ops, g3: Gen, e3: AExp, e4: AExp, o2: int, g5: Gen, e5: AExp, o1: int, fr: int, env: Env,
      r: Regs, x: Ctx, b: Expr)
    requires BothSettled(ops, g3, e3, e4, o2, g5, e5, o1, fr, env, r, x, b)
    ensures !HasJumps(e5) && !e5.k.VJMP?
  {
  }

  lemma Ready2Ops(ops: Ops, g2: Gen, e2: AExp, fr: int, g3: Gen, e3: AExp, env: Env, r: Regs, x: Ctx, b: Expr)
    requires Ready2(ops, g2, e2, fr, g3, e3, env, r, x, b)
    ensures env.ops == ops && !HasJumps(e2) && (e2.k.VNONRELOC? || e2.k.VKNUM? || (e2.k.VK? && e2.info <= MAXINDEXRK))
  {
  }

  lemma PosfixArith(ops: Ops, g2: Gen, e2: AExp, fr: int, g3: Gen, e3: AExp, op: ArithOp, env: Env, r: Regs, x: Ctx,
      b: Expr)
    requires Ready2(ops, g2, e2, fr, g3, e3, env, r, x, b)
    requires CodeArith(ops, g3, op, e2, e3).0.ok && CodeArith(ops, g3, op, e2, e3).0.consts <= env.k
    ensures BinDone(ops, g3, e3, CodeArith(ops, g3, op, e2, e3), fr, env, r, BinCtx(env, ARITH(op), x, b))
  {
    if FoldArith(ops, op, e2, e3).Some? {
      FoldedSem(ops, g2, e2, fr, g3, e3, op, env, r, x, b);
    } else {
      Ready2Ops(ops, g2, e2, fr, g3, e3, env, r, x, b);
      hide RunFrom, WFGen, ListsOk, Frame, Sem, Exp2RK, PairSem, Emit, Inv, RelocValue, StrictBin, RK, BothSettled,
          PairReady, Ready2, Kept;
      var (g4, e4, o2) := Exp2RK(g3, e3);
      var (g5, e5, o1) := Exp2RK(g4, e2);
      var g6 := FreeExps(g5, e5, o1, e4, o2);
      var i: AInstr := Arith(op, 0, o1, o2);
      assert Grows(g5, Emit(g6, i));
      ArithOperands(ops, g2, e2, fr, g3, e3, env, r, x, b);
      assert !HasJumps(e5) && !e5.k.VJMP? by { BothPlain(ops, g3, e3, e4, o2, g5, e5, o1, fr, env, r, x, b); }
      FreePair(ops, g3, e3, e4, o2, g5, e5, o1, fr, env, r, x, b);
      ArithReloc(env, op, o1, o2);
      RelocPair(ops, g6, e5, i, ARITH(op), o1, o2, fr, env, r, x, b);
      FrameTrans(g3, e3, g6, e5, Emit(g6, i), e5.(info := |g6.code|, k := VRELOCABLE));
    }
  }

  /** Which comparison instruction an operator becomes. */
  function CompareInstr(op: CmpOp, cond: bool, o1: int, o2: int): AInstr {
    if !cond && !op.EQ? then Cmp(op, true, o2, o1) else Cmp(op, cond, o1, o2)
  }

  predicate Compares(op: BinOpr, c: CmpOp, cond: bool) {
    match op
    case EQUAL => c.EQ? && cond
    case NE => c.EQ? && !cond
    case LESS => c.LT? && cond
    case LESSEQ => c.LE? && cond
    case GREATER => c.LT? && !cond
    case GREATEREQ => c.LE? && !cond
    case _ => false
  }

  lemma CompareTaken(env: Env, op: BinOpr, c: CmpOp, cond: bool, o1: int, o2: int)
    requires Compares(op, c, cond)
    ensures forall r3 ::
        StrictBin(env.ops, op, RK(env, r3, o1), RK(env, r3, o2)) ==
        ToValue(TestTaken(env, CompareInstr(c, cond, o1, o2), r3))
  {
  }

  lemma CodeCompIs(g3: Gen, c: CmpOp, cond: bool, e2: AExp, e3: AExp)
    requires !HasJumps(e2) && (e2.k.VNONRELOC? || (e2.k.VK? && e2.info <= MAXINDEXRK))
    ensures var (g4, e4, o2) := Exp2RK(g3, e3);
            var g6 := FreeExp(FreeExp(g4, e4), e2);
            var (g7, l) := CondJump(g6, CompareInstr(c, cond, KeptRK(e2), o2));
            && CodeComp(g3, c, cond, e2, e3) == (g7, e2.(info := if l == [] then -1 else l[0], k := VJMP))
            && Exp2RK(g4, e2) == (g4, e2, KeptRK(e2))
            && Grows(g4, g7)
  {
    KeptAgain(g3, e2);
    hide Exp2RK, CondJump;
    KeptAgain(Exp2RK(g3, e3).0, e2);
  }

  lemma PosfixCompare(ops: Ops, g2: Gen, e2: AExp, fr: int, g3: Gen, e3: AExp, op: BinOpr, c: CmpOp, cond: bool,
      env: Env, r: Regs, x: Ctx, b: Expr)
    requires Ready2(ops, g2, e2, fr, g3, e3, env, r, x, b) && !e2.k.VKNUM? && Compares(op, c, cond)
    requires CodeComp(g3, c, cond, e2, e3).0.ok && CodeComp(g3, c, cond, e2, e3).0.consts <= env.k
    ensures BinDone(ops, g3, e3, CodeComp(g3, c, cond, e2, e3), fr, env, r, BinCtx(env, op, x, b))
  {
    hide RunFrom, WFGen, ListsOk, Frame, Sem, Exp2RK, PairSem, CondJump, Inv, TestTaken, StrictBin, RK, BothSettled,
        PairReady, Kept;
    Ready2Ops(ops, g2, e2, fr, g3, e3, env, r, x, b);
    CodeCompIs(g3, c, cond, e2, e3);
    hide Ready2, CodeComp;
    var (g4, e4, o2) := Exp2RK(g3, e3);
    var o1 := KeptRK(e2);
    var g6 := FreeExp(FreeExp(g4, e4), e2);
    var i := CompareInstr(c, cond, o1, o2);
    ArithOperands(ops, g2, e2, fr, g3, e3, env, r, x, b);
    FreePair(ops, g3, e3, e4, o2, g4, e2, o1, fr, env, r, x, b);
    hide FreeExp, FreeExps;
    CompareTaken(env, op, c, cond, o1, o2);
    ComparePair(ops, g6, e2, i, op, o1, o2, fr, env, r, x, b);
    FrameTrans(g3, e3, g6, e2, CondJump(g6, i).0, e2.(info := |g6.code| + 1, k := VJMP));
  }
}
