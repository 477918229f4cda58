/** Compiling an expression preserves its meaning. */
module Compilation {
  import opened Common
  import opened LuaValues
  import opened Opcodes
  import opened PartialCode
  import opened CodeGen
  import opened GenInvariant
  import opened ExpMeaning
  import opened RegisterLoads
  import opened Operands
  import opened Conditions
  import opened Negation
  import opened BinaryOperands
  import opened Operators

  // ----- unary operators -----

  ghost function UnCtx(env: Env, op: UnOpr, x: Ctx): Ctx {
    match x
    case Any => Any
    case Dead(o) => Dead(o)
    case Live(r0, None) => Live(r0, None)
    case Live(r0, Some(v)) => Live(r0, StrictUn(env.ops, op, v))
  }

  /** -e and #e on a value in a register. */
  lemma UnaryReg(ops: Ops, g: Gen, e: AExp, minus: bool, fr: int, env: Env, r: Regs, x: Ctx)
    requires Inv(ops, g, e, fr) && Sem(g, e, fr, -1, env, r, x) && e.k.VNONRELOC? && !HasJumps(e) && env.ops == ops
    requires CodeUnary(g, minus, e).0.ok
    ensures var (g', e') := CodeUnary(g, minus, e);
            Inv(ops, g', e', fr) && Sem(g', e', fr, -1, env, r, UnCtx(env, if minus then MINUS else LEN, x))
                && Frame(g, e, g', e')
            && !e'.k.VK?
  {
    UnaryRegRun(ops, g, e, minus, fr, env, r);
    hide RunFrom, At, Emit, WFGen, Inv, ListsOk, CodeOutcome, CodeUnary, ValueHere, Sem, StrictUn;
    var (g', e') := CodeUnary(g, minus, e);
    UnFrom(g, e, g', e', if minus then MINUS else LEN, fr, env, r, x);
  }

  lemma UnaryRegRun(ops: Ops, g: Gen, e: AExp, minus: bool, fr: int, env: Env, r: Regs)
    requires Inv(ops, g, e, fr) && e.k.VNONRELOC? && !HasJumps(e) && env.ops == ops
    requires CodeUnary(g, minus, e).0.ok
    ensures var (g', e') := CodeUnary(g, minus, e);
            && Inv(ops, g', e', fr) && Frame(g, e, g', e') && e'.k.VRELOCABLE? && !HasJumps(e')
            && CodeOutcome(g', e', env, r) == CodeOutcome(g, e, env, r)
            && forall r1 :: ValueHere(g, e, env, r1).Some?
                            && ValueHere(g', e', env, r1) ==
                                StrictUn(ops, if minus then MINUS else LEN, ValueHere(g, e, env, r1).value)
  {
    hide RunFrom, WFCode, AllOpen, TargetsLabelled;
    KeptAgain(g, e);
    var h := FreeExp(g, e);
    var i: AInstr := if minus then Unm(0, e.info) else Len(0, e.info);
    assert h == g.(freereg := fr);
    EmitReloc(ops, h, e, i, fr);
    EmitWF(h, i);
    EmitRun(h, i, env, r);
    var g' := Emit(h, i);
    FrameRegs(g, e, g, e, fr);
    FrameTrans(g, e, h, e, g', e.(info := |h.code|, k := VRELOCABLE));
  }

  lemma UnFrom(g: Gen, e: AExp, g': Gen, e': AExp, op: UnOpr, fr: int, env: Env, r: Regs, x: Ctx)
    requires Sem(g, e, fr, -1, env, r, x) && Frame(g, e, g', e')
    requires !HasJumps(e) && !HasJumps(e') && !e.k.VJMP? && !e'.k.VJMP?
    requires CodeOutcome(g', e', env, r) == CodeOutcome(g, e, env, r)
    requires forall r1 ::
        ValueHere(g, e, env, r1).Some?
        && ValueHere(g', e', env, r1) == StrictUn(env.ops, op, ValueHere(g, e, env, r1).value)
    ensures Sem(g', e', fr, -1, env, r, UnCtx(env, op, x))
  {
    hide CodeOutcome, ValueHere, StrictUn, OpenAt;
  }

  lemma PrefixOk(ops: Ops, g: Gen, e: AExp, op: UnOpr, fr: int, env: Env, r: Regs, x: Ctx)
    requires Inv(ops, g, e, fr) && Sem(g, e, fr, -1, env, r, x) && RawConst(g, e) && env.ops == ops
    requires NegationKeepsNumbers(ops)
    requires Prefix(ops, g, op, e).0.ok && Prefix(ops, g, op, e).0.consts <= env.k && Clean(g, r)
    ensures BinDone(ops, g, e, Prefix(ops, g, op, e), fr, env, r, UnCtx(env, op, x))
  {
    match op
    case NOT =>
      CodeNotOk(ops, g, e, fr, -1, env, r, x);
      assert NotCtx(x) == UnCtx(env, NOT, x);
    case MINUS =>
      if IsNumeral(e) {
        NegatedNumeral(ops, g, e, fr, env, r, x);
      } else {
        hide RunFrom, Sem, Frame, Exp2AnyReg, WFGen, ListsOk, CodeUnary;
        var (g1, e1) := Exp2AnyReg(g, e);
        Exp2AnyRegOk(ops, g, e, fr, -1, env, r, x);
        UnaryReg(ops, g1, e1, true, fr, env, r, x);
        var (g', e') := CodeUnary(g1, true, e1);
        FrameTrans(g, e, g1, e1, g', e');
      }
    case LEN =>
      hide RunFrom, Sem, Frame, Exp2AnyReg, WFGen, ListsOk, CodeUnary;
      var (g1, e1) := Exp2AnyReg(g, e);
      Exp2AnyRegOk(ops, g, e, fr, -1, env, r, x);
      UnaryReg(ops, g1, e1, false, fr, env, r, x);
      var (g', e') := CodeUnary(g1, false, e1);
      FrameTrans(g, e, g1, e1, g', e');
  }

  lemma NegatedNumeral(ops: Ops, g: Gen, e: AExp, fr: int, env: Env, r: Regs, x: Ctx)
    requires Inv(ops, g, e, fr) && Sem(g, e, fr, -1, env, r, x) && IsNumeral(e) && env.ops == ops
    requires NegationKeepsNumbers(ops)
    ensures BinDone(ops, g, e, (g, e.(nval := ops.unm(e.nval))), fr, env, r, UnCtx(env, MINUS, x))
  {
    FrameSettled(g, e, e.(nval := ops.unm(e.nval)));
    hide RunFrom, WFCode, WFGen;
  }

  // ----- concatenation -----

  /** The second operand is itself a concatenation: its instruction takes one more operand. */
  lemma ConcatMerge(ops: Ops, g2: Gen, e2: AExp, fr: int, g: Gen, e: AExp, env: Env, r: Regs, x: Ctx, b: Expr)
    requires Ready2(ops, g2, e2, fr, g, e, env, r, x, b) && e2.k.VNONRELOC? && e2.info == fr && fr >= g2.nactvar
    requires e.k.VRELOCABLE? && g.code[e.info].Concat? && !HasJumps(e) && g2.freereg == fr + 1
    ensures var i := g.code[e.info];
            var g' := FreeExp(g, e2).(code := g.code[e.info := Concat(i.a, e2.info, i.c)]);
            var e' := e2.(k := VRELOCABLE, info := e.info);
            BinDone(ops, g, e, (g', e'), fr, env, r, BinCtx(env, CONCAT, x, b))
  {
    var i := g.code[e.info];
    var i': AInstr := Concat(i.a, e2.info, i.c);
    var g1 := g.(code := g.code[e.info := i']);
    var g' := g1.(freereg := fr);
    assert FreeExp(g, e2) == g.(freereg := fr);
    var e' := e2.(k := VRELOCABLE, info := e.info);
    ReplaceLastWF(g, i');
    assert g.code[e.info := i'] == Front(g.code) + [i'];
    assert Front(g.code) == g.code[..e.info] == g'.code[..e.info];
    NoJumpLists(g', e');
    assert Inv(ops, g', e', fr);
    assert Frame(g, e, g', e');
    assert CodeOutcome(g', e', env, r) == CodeOutcome(g, e, env, r);
    MergedValue(ops, g, e, g', e', fr, env);
    var o2 := At(g2, env, r);
    assert CodeOutcome(g2, e2, env, r) == o2;
    hide RunFrom, WFGen, Inv, ListsOk, CodeOutcome, KindOk;
    MergeFrom(g2, e2, g, e, g', e', fr, env, r, x, b);
  }

  lemma MergeFrom(g2: Gen, e2: AExp, g: Gen, e: AExp, g': Gen, e': AExp, fr: int, env: Env, r: Regs, x: Ctx, b: Expr)
    requires Sem(g2, e2, fr, -1, env, r, x) && e2.k.VNONRELOC? && !HasJumps(e2) && e2.info == fr
    requires Sem(g, e, fr + 1, -1, env, r, Start(g2, env, r, b)) && Frame(g, e, g', e')
    requires !HasJumps(e) && !HasJumps(e') && !e.k.VJMP? && !e'.k.VJMP?
    requires CodeOutcome(g', e', env, r) == CodeOutcome(g, e, env, r) && CodeOutcome(g2, e2, env, r) == At(g2, env, r)
    requires forall r1 :: ValueHere(g', e', env, r1) ==
                          match ValueHere(g, e, env, r1)
                          case None => None
                          case Some(v) => env.ops.concat(Get(r1, fr), v)
    requires WFExpr(env.ops, b, g2.nactvar) && g2.nactvar <= fr
    ensures Sem(g', e', fr, -1, env, r, BinCtx(env, CONCAT, x, b))
  {
    var o2 := At(g2, env, r);
    assert forall r1 :: ValueHere(g2, e2, env, r1) == Some(Get(r1, fr));
    hide CodeOutcome, ValueHere, At, Get, OpenAt, WFExpr;
    match x
    case Live(r0, v) =>
      if o2.Reach? {
        MergeReached(g2, g, e, g', e', fr, env, r, r0, o2.regs, b);
      } else {
        hide Same, Frame;
      }
    case _ => hide Same, Eval;
  }

  /** The first operand is in register fr; the second decides. */
  lemma MergeReached(g2: Gen, g: Gen, e: AExp, g': Gen, e': AExp, fr: int, env: Env, r: Regs, r0: Regs, r1: Regs,
      b: Expr)
    requires At(g2, env, r) == Reach(r1) && Same(r0, r1, fr, -1)
    requires Sem(g, e, fr + 1, -1, env, r, Start(g2, env, r, b))
    requires !HasJumps(e) && !HasJumps(e') && !e.k.VJMP? && !e'.k.VJMP?
    requires CodeOutcome(g', e', env, r) == CodeOutcome(g, e, env, r)
    requires forall r1 :: ValueHere(g', e', env, r1) ==
                          match ValueHere(g, e, env, r1)
                          case None => None
                          case Some(v) => env.ops.concat(Get(r1, fr), v)
    requires WFExpr(env.ops, b, g2.nactvar) && g2.nactvar <= fr
    ensures Sem(g', e', fr, -1, env, r, BinCtx(env, CONCAT, Live(r0, Some(Get(r1, fr))), b))
  {
    EvalSame(env, r0, r1, b, g2.nactvar);
    hide CodeOutcome, ValueHere, At, Get, OpenAt, Eval, WFExpr;
  }

  lemma MergedValue(ops: Ops, g: Gen, e: AExp, g': Gen, e': AExp, fr: int, env: Env)
    requires e.k.VRELOCABLE? && e'.k.VRELOCABLE? && e'.info == e.info && 0 <= e.info < |g.code| && |g'.code| == |g.code|
    requires g.code[e.info].Concat? && g.code[e.info].b == fr + 1 <= g.code[e.info].c
    requires g'.code[e.info] == Concat(g.code[e.info].a, fr, g.code[e.info].c)
    ensures forall r1 :: ValueHere(g', e', env, r1) ==
                         match ValueHere(g, e, env, r1)
                         case None => None
                         case Some(v) => env.ops.concat(Get(r1, fr), v)
  {
  }

  lemma PosfixConcat(ops: Ops, g2: Gen, e2: AExp, fr: int, g3: Gen, e3: AExp, env: Env, r: Regs, x: Ctx, b: Expr)
    requires Ready2(ops, g2, e2, fr, g3, e3, env, r, x, b) && e2.k.VNONRELOC? && e2.info == fr && g2.freereg == fr + 1
    requires Posfix(ops, g3, CONCAT, e2, e3).0.ok && Posfix(ops, g3, CONCAT, e2, e3).0.consts <= env.k
    ensures BinDone(ops, g3, e3, Posfix(ops, g3, CONCAT, e2, e3), fr, env, r, BinCtx(env, CONCAT, x, b))
  {
    hide RunFrom, WFGen, ListsOk, Frame, Sem, Exp2Val, Exp2NextReg, CodeConcat;
    var (g, e) := Exp2Val(g3, e3);
    var res := Posfix(ops, g3, CONCAT, e2, e3);
    assert Grows(g, res.0);
    Exp2ValOk(ops, g3, e3, g2.freereg, -1, env, r, Start(g2, env, r, b));
    if e.k.VRELOCABLE? && 0 <= e.info < |g.code| && g.code[e.info].Concat? {
      ConcatMerge(ops, g2, e2, fr, g, e, env, r, x, b);
      FrameTrans(g3, e3, g, e, res.0, res.1);
    } else {
      var (g1, e1) := Exp2NextReg(g, e);
      Exp2NextRegOk(ops, g, e, g2.freereg, -1, env, r, Start(g2, env, r, b));
      FrameTrans(g3, e3, g, e, g1, e1);
      ConcatRegs(ops, g2, e2, fr, g3, e3, g1, e1, env, r, x, b);
    }
  }

  lemma ConcatReloc(env: Env, fr: int)
    requires 0 <= fr < MAXSTACK - 1
    ensures forall r3 ::
        RelocValue<Dest>(env, Concat(0, fr, fr + 1), r3) ==
        StrictBin(env.ops, CONCAT, RK(env, r3, fr), RK(env, r3, fr + 1))
  {
    forall r3
      ensures RelocValue<Dest>(env, Concat(0, fr, fr + 1), r3) ==
          StrictBin(env.ops, CONCAT, RK(env, r3, fr), RK(env, r3, fr + 1))
    {
      assert ConcatRange(env.ops, r3, fr + 1, fr + 1) == Some(Get(r3, fr + 1));
    }
  }

  lemma CodeConcatIs(g: Gen, e1: AExp, e2: AExp)
    requires !HasJumps(e1) && !HasJumps(e2) && e1.k.VNONRELOC? && e2.k.VNONRELOC? && e1.info <= e2.info
    ensures var h := FreeExp(FreeExp(g, e2), e1);
            CodeConcat(g, e1, e2) == (Emit(h, Concat(0, e1.info, e2.info)), e1.(info := |h.code|, k := VRELOCABLE))
  {
    KeptAgain(g, e1);
    KeptAgain(g, e2);
  }

  lemma ConcatPair(ops: Ops, g2: Gen, e2: AExp, fr: int, g3: Gen, e3: AExp, g1: Gen, e1: AExp, env: Env, r: Regs,
      x: Ctx, b: Expr)
    requires Ready2(ops, g2, e2, fr, g3, e3, env, r, x, b) && e2.k.VNONRELOC? && e2.info == fr && g2.freereg == fr + 1
    requires Inv(ops, g1, e1, fr + 1) && Sem(g1, e1, fr + 1, -1, env, r, Start(g2, env, r, b)) && Frame(g3, e3, g1, e1)
    requires e1.k.VNONRELOC? && e1.info == fr + 1 && !HasJumps(e1) && g1.nactvar == g2.nactvar
    requires g2.consts <= g1.consts <= env.k
    ensures var h := FreeExp(FreeExp(g1, e1), e2);
            && PairReady(ops, h, fr, fr + 1, fr, env, r, x, b) && Frame(g3, e3, h, e2)
            && 0 <= fr && fr + 1 < MAXSTACK && !HasJumps(e2) && env.ops == ops
  {
    hide RunFrom, WFCode, AllOpen, TargetsLabelled, Apart, CondList, Frame, Sem, BothSettled, PairReady;
    assert Settled(g1, e1, fr + 1) && KeptRK(e2) == fr;
    KeptThenSettled(ops, g2, e2, fr, g3, e3, g1, e1, fr + 1, env, r, x, b);
    FreePair(ops, g3, e3, e1, fr + 1, g1, e2, fr, fr, env, r, x, b);
  }

  lemma ConcatRegs(ops: Ops, g2: Gen, e2: AExp, fr: int, g3: Gen, e3: AExp, g1: Gen, e1: AExp, env: Env, r: Regs,
      x: Ctx, b: Expr)
    requires Ready2(ops, g2, e2, fr, g3, e3, env, r, x, b) && e2.k.VNONRELOC? && e2.info == fr && g2.freereg == fr + 1
    requires Inv(ops, g1, e1, fr + 1) && Sem(g1, e1, fr + 1, -1, env, r, Start(g2, env, r, b)) && Frame(g3, e3, g1, e1)
    requires e1.k.VNONRELOC? && e1.info == fr + 1 && !HasJumps(e1) && g1.nactvar == g2.nactvar
    requires CodeConcat(g1, e2, e1).0.ok && CodeConcat(g1, e2, e1).0.consts <= env.k && g2.consts <= g1.consts
    ensures BinDone(ops, g3, e3, CodeConcat(g1, e2, e1), fr, env, r, BinCtx(env, CONCAT, x, b))
  {
    hide RunFrom, WFGen, ListsOk, Frame, Sem, Emit, Inv, PairReady, Ready2, RelocValue, StrictBin, RK;
    ConcatPair(ops, g2, e2, fr, g3, e3, g1, e1, env, r, x, b);
    CodeConcatIs(g1, e2, e1);
    hide CodeConcat, FreeExp;
    var h := FreeExp(FreeExp(g1, e1), e2);
    var i: AInstr := Concat(0, fr, fr + 1);
    ConcatReloc(env, fr);
    RelocPair(ops, h, e2, i, CONCAT, fr, fr + 1, fr, env, r, x, b);
    FrameTrans(g3, e3, h, e2, Emit(h, i), e2.(info := |h.code|, k := VRELOCABLE));
  }

  // ----- and, or -----

  function NoExp(): AExp {
    InitExp(VNIL, 0)
  }

  /** The value of `e1 and b` (pass) or `e1 or b`, given the context of e1. */
  ghost function BoolCtx(env: Env, pass: bool, x: Ctx, b: Expr): Ctx {
    match x
    case Any => Any
    case Dead(o) => Dead(o)
    case Live(r0, None) => Live(r0, None)
    case Live(r0, Some(v)) => if IsFalse(v) == pass then Live(r0, Some(v)) else Live(r0, Eval(env, r0, b))
  }

  /** posfix for and/or: the exits of the first operand join those of the second. */
  function Joined(e4: AExp, pass: bool, exits: seq<nat>): AExp {
    if pass then e4.(f := e4.f + exits) else e4.(t := e4.t + exits)
  }

  lemma NoDupConcat(a: seq<nat>, b: seq<nat>)
    requires NoDup(a) && NoDup(b) && Apart(b, a)
    ensures NoDup(a + b)
  {
    forall i, j | 0 <= i < j < |a + b| ensures (a + b)[i] != (a + b)[j] {
      if i < |a| <= j { assert b[j - |a|] in b; assert a[i] in a; }
    }
  }

  lemma ExitsOuter(g2: Gen, e2: AExp, exits: seq<nat>, g4: Gen, e4: AExp)
    requires ListsOk(g2, e2) && (exits == e2.t || exits == e2.f) && Frame(g2, NoExp(), g4, e4)
    ensures forall j :: j in exits ==>
        Outer(g4, e4, j) && Control(g4.code, j) == Control(g2.code, j) && Control(g4.code, j).Some?
  {
    forall j | j in exits
      ensures Outer(g4, e4, j) && Control(g4.code, j) == Control(g2.code, j) && Control(g4.code, j).Some?
    {
      assert j in Elems(exits);
      assert OpenAt(g2.code, j);
      assert j !in g2.jpc;
      assert Outer(g2, NoExp(), j);
    }
  }

  lemma JoinedInv(ops: Ops, g2: Gen, e2: AExp, pass: bool, exits: seq<nat>, fr: int, g4: Gen, e4: AExp)
    requires ListsOk(g2, e2) && exits == (if pass then e2.f else e2.t) && (if pass then e2.t == [] else e2.f == [])
        && !e2.k.VJMP?
    requires Inv(ops, g4, e4, fr) && Frame(g2, NoExp(), g4, e4)
    ensures Inv(ops, g4, Joined(e4, pass, exits), fr) && Frame(g2, e2, g4, Joined(e4, pass, exits))
  {
    ExitsOuter(g2, e2, exits, g4, e4);
    var e5 := Joined(e4, pass, exits);
    assert Apart(exits, e4.t) && Apart(exits, e4.f);
    NoDupConcat(e4.f, exits);
    NoDupConcat(e4.t, exits);
    assert Elems(e4.f + exits) == Elems(e4.f) + Elems(exits);
    assert Elems(e4.t + exits) == Elems(e4.t) + Elems(exits);
    hide WFGen;
    forall j | Outer(g2, e2, j) ensures Outer(g4, e5, j) && Control(g4.code, j) == Control(g2.code, j) {
      assert Outer(g2, NoExp(), j);
      assert Outer(g4, e4, j);
    }
  }

  lemma JoinedSame(g4: Gen, e4: AExp, pass: bool, exits: seq<nat>, env: Env, r: Regs)
    ensures var e5 := Joined(e4, pass, exits);
            && CodeOutcome(g4, e5, env, r) == CodeOutcome(g4, e4, env, r)
            && forall r1 :: ValueHere(g4, e5, env, r1) == ValueHere(g4, e4, env, r1)
  {
    hide RunFrom;
  }

  /** The second operand was evaluated: it delivers the value. */
  lemma JoinedReached(g4: Gen, e4: AExp, pass: bool, exits: seq<nat>, fr: int, env: Env, r: Regs, r0: Regs, r1: Regs,
      v: Option<Value>)
    requires Sem(g4, e4, fr, -1, env, r, Live(r1, v)) && Same(r0, r1, fr, -1)
    requires forall j :: j in exits ==> Outer(g4, e4, j)
    ensures Sem(g4, Joined(e4, pass, exits), fr, -1, env, r, Live(r0, v))
  {
    hide RunFrom, At, CodeOutcome, ValueHere, OpenAt, Control;
    JoinedSame(g4, e4, pass, exits, env, r);
  }

  /** It was not: the first operand left through an exit, failed, or was never reached. */
  lemma JoinedSkipped(g2: Gen, e2: AExp, pass: bool, exits: seq<nat>, fr: int, g4: Gen, e4: AExp, env: Env, r: Regs,
      x: Ctx, b: Expr)
    requires exits == (if pass then e2.f else e2.t) && (if pass then e2.t == [] else e2.f == [])
    requires BranchSem(g2, e2.t, e2.f, pass, fr, -1, env, r, x) && !At(g2, env, r).Reach?
    requires Sane(g2, env, r)
    requires Sem(g4, e4, fr, -1, env, r, Start(g2, env, r, b)) && Frame(g2, NoExp(), g4, e4)
    requires forall j :: j in exits ==> Outer(g4, e4, j) && Control(g4.code, j) == Control(g2.code, j)
    ensures Sem(g4, Joined(e4, pass, exits), fr, -1, env, r, BoolCtx(env, pass, x, b))
  {
    hide RunFrom, At, CodeOutcome, ValueHere, OpenAt, Control;
    JoinedSame(g4, e4, pass, exits, env, r);
  }

  lemma SaneBranch(g2: Gen, e2: AExp, pass: bool, fr: int, env: Env, r: Regs, x: Ctx)
    requires ListsOk(g2, e2) && BranchSem(g2, e2.t, e2.f, pass, fr, -1, env, r, x) && !x.Any?
    ensures Sane(g2, env, r)
  {
    hide RunFrom, Delivers;
    var o := At(g2, env, r);
    if o.Exit? && (o.at in e2.t || o.at in e2.f) {
      assert o.at in Elems(e2.t) || o.at in Elems(e2.f);
    }
  }

  lemma JoinedSem(ops: Ops, g2: Gen, e2: AExp, pass: bool, exits: seq<nat>, fr: int, g4: Gen, e4: AExp, env: Env,
      r: Regs, x: Ctx, b: Expr)
    requires ListsOk(g2, e2) && exits == (if pass then e2.f else e2.t) && (if pass then e2.t == [] else e2.f == [])
        && !e2.k.VJMP?
    requires BranchSem(g2, e2.t, e2.f, pass, fr, -1, env, r, x)
    requires Frame(g2, NoExp(), g4, e4) && Sem(g4, e4, fr, -1, env, r, Start(g2, env, r, b))
    requires WFExpr(env.ops, b, g2.nactvar) && g2.nactvar <= fr
    ensures Sem(g4, Joined(e4, pass, exits), fr, -1, env, r, BoolCtx(env, pass, x, b))
  {
    hide RunFrom, At, Sem, Frame, ListsOk, Delivers, Control;
    ExitsOuter(g2, e2, exits, g4, e4);
    if x.Any? {
      SemAny(g4, Joined(e4, pass, exits), fr, -1, env, r);
    } else {
      SaneBranch(g2, e2, pass, fr, env, r, x);
      match At(g2, env, r) {
        case Reach(r1) =>
          EvalSame(env, x.r0, r1, b, g2.nactvar);
          JoinedReached(g4, e4, pass, exits, fr, env, r, x.r0, r1, Eval(env, r1, b));
        case _ =>
          JoinedSkipped(g2, e2, pass, exits, fr, g4, e4, env, r, x, b);
      }
    }
  }

  /** The second operand compiled at g2 into e3, then joined with the first. */
  lemma PosfixBool(ops: Ops, g2: Gen, e2: AExp, pass: bool, fr: int, g3: Gen, e3: AExp, env: Env, r: Regs, x: Ctx,
      b: Expr)
    requires ListsOk(g2, e2) && (if pass then e2.t == [] else e2.f == []) && !e2.k.VJMP?
    requires BranchSem(g2, e2.t, e2.f, pass, fr, -1, env, r, x)
    requires Inv(ops, g3, e3, fr) && Sem(g3, e3, fr, -1, env, r, Start(g2, env, r, b)) && Frame(g2, NoExp(), g3, e3)
        && RawConst(g3, e3)
    requires WFExpr(ops, b, g2.nactvar) && env.ops == ops && g2.nactvar <= fr
    requires Posfix(ops, g3, if pass then AND else OR, e2, e3).0.ok
    ensures var (g', e') := Posfix(ops, g3, if pass then AND else OR, e2, e3);
            && Inv(ops, g', e', fr) && Sem(g', e', fr, -1, env, r, BoolCtx(env, pass, x, b))
            && Frame(g2, e2, g', e') && RawConst(g', e')
  {
    hide RunFrom, WFGen, ListsOk, Frame, Sem, DischargeVars, BranchSem;
    var (g4, e4) := DischargeVars(g3, e3);
    var exits := if pass then e2.f else e2.t;
    DischargeVarsOk(ops, g3, e3, fr, -1, env, r, Start(g2, env, r, b));
    FrameTrans(g2, NoExp(), g3, e3, g4, e4);
    JoinedInv(ops, g2, e2, pass, exits, fr, g4, e4);
    JoinedSem(ops, g2, e2, pass, exits, fr, g4, e4, env, r, x, b);
    assert g4.ok;
  }

  // ----- indexing -----

  ghost function IndexCtx(env: Env, x: Ctx, b: Expr): Ctx {
    match x
    case Any => Any
    case Dead(o) => Dead(o)
    case Live(r0, None) => Live(r0, None)
    case Live(r0, Some(v)) =>
      match Eval(env, r0, b)
      case None => Live(r0, None)
      case Some(y) => Live(r0, env.ops.index(v, y))
  }

  lemma IndexSem(g4: Gen, e': AExp, o2: int, fr: int, env: Env, r: Regs, x: Ctx, b: Expr)
    requires PairSem(g4, e'.info, o2, fr, env, r, x, b) && e'.k.VINDEXED? && e'.aux == o2 && !HasJumps(e')
    requires 0 <= e'.info < BITRK
    ensures Sem(g4, e', fr, -1, env, r, IndexCtx(env, x, b))
  {
    hide RunFrom, OpenAt;
  }

  lemma IndexedOk(ops: Ops, g2: Gen, e2: AExp, fr: int, g3: Gen, e3: AExp, env: Env, r: Regs, x: Ctx, b: Expr)
    requires Ready2(ops, g2, e2, fr, g3, e3, env, r, x, b) && e2.k.VNONRELOC?
    requires Indexed(g3, e2, e3).0.ok && Indexed(g3, e2, e3).0.consts <= env.k
    ensures BinDone(ops, g3, e3, Indexed(g3, e2, e3), fr, env, r, IndexCtx(env, x, b))
  {
    hide RunFrom, WFGen, ListsOk, Frame, Sem, Exp2RK, PairSem;
    var (g4, e4, o2) := Exp2RK(g3, e3);
    Exp2RKOk(ops, g3, e3, g2.freereg, -1, env, r, Start(g2, env, r, b));
    PairSettled(ops, g2, e2, fr, x, g4, e4, o2, env, r, b);
    var e' := e2.(aux := o2, k := VINDEXED);
    NoJumpLists(g4, e');
    FrameSettled(g4, e4, e');
    FrameTrans(g3, e3, g4, e4, g4, e');
    IndexedHeld(ops, g2, e2, fr, g4, e4, o2);
    IndexSem(g4, e', o2, fr, env, r, x, b);
  }

  lemma IndexedHeld(ops: Ops, g2: Gen, e2: AExp, fr: int, g4: Gen, e4: AExp, o2: int)
    requires Kept(ops, g2, e2, fr) && e2.k.VNONRELOC? && Inv(ops, g4, e4, g2.freereg) && Settled(g4, e4, o2)
    requires g4.nactvar == g2.nactvar
    ensures Held(g4, e2.(aux := o2, k := VINDEXED), fr) && 0 <= e2.info < BITRK
  {
    hide WFCode, ListsOk, AllOpen, TargetsLabelled;
  }

  // ----- the first operand -----

  lemma InfixOk(ops: Ops, g: Gen, e: AExp, op: BinOpr, fr: int, env: Env, r: Regs, x: Ctx)
    requires Inv(ops, g, e, fr) && Sem(g, e, fr, -1, env, r, x) && !op.AND? && !op.OR?
    requires Infix(g, op, e).0.ok && Infix(g, op, e).0.consts <= env.k && Clean(g, r)
    ensures var (g', e') := Infix(g, op, e);
            && Kept(ops, g', e', fr) && Sem(g', e', fr, -1, env, r, x) && Frame(g, e, g', e')
            && (!op.ARITH? ==> !e'.k.VKNUM?)
            && (op.CONCAT? ==> e'.k.VNONRELOC? && e'.info == fr && g'.freereg == fr + 1)
  {
    hide RunFrom, WFGen, ListsOk, Frame, Sem, Exp2RK, Exp2NextReg;
    if op.CONCAT? {
      Exp2NextRegOk(ops, g, e, fr, -1, env, r, x);
    } else if op.ARITH? && IsNumeral(e) {
      FrameRefl(g, e);
    } else {
      Exp2RKOk(ops, g, e, fr, -1, env, r, x);
    }
  }

  lemma PosfixStrict(ops: Ops, g2: Gen, e2: AExp, fr: int, g3: Gen, e3: AExp, op: BinOpr, env: Env, r: Regs, x: Ctx,
      b: Expr)
    requires Ready2(ops, g2, e2, fr, g3, e3, env, r, x, b) && !op.AND? && !op.OR?
    requires (!op.ARITH? ==> !e2.k.VKNUM?) && (op.CONCAT? ==> e2.k.VNONRELOC? && e2.info == fr && g2.freereg == fr + 1)
    requires Posfix(ops, g3, op, e2, e3).0.ok && Posfix(ops, g3, op, e2, e3).0.consts <= env.k
    ensures BinDone(ops, g3, e3, Posfix(ops, g3, op, e2, e3), fr, env, r, BinCtx(env, op, x, b))
  {
    hide CodeArith, CodeComp, Ready2, BinDone, Exp2Val, CodeConcat, Exp2NextReg, BinCtx;
    match op
    case ARITH(a) => PosfixArith(ops, g2, e2, fr, g3, e3, a, env, r, x, b);
    case CONCAT => PosfixConcat(ops, g2, e2, fr, g3, e3, env, r, x, b);
    case EQUAL => PosfixCompare(ops, g2, e2, fr, g3, e3, op, EQ, true, env, r, x, b);
    case NE => PosfixCompare(ops, g2, e2, fr, g3, e3, op, EQ, false, env, r, x, b);
    case LESS => PosfixCompare(ops, g2, e2, fr, g3, e3, op, LT, true, env, r, x, b);
    case LESSEQ => PosfixCompare(ops, g2, e2, fr, g3, e3, op, LE, true, env, r, x, b);
    case GREATER => PosfixCompare(ops, g2, e2, fr, g3, e3, op, LT, false, env, r, x, b);
    case GREATEREQ => PosfixCompare(ops, g2, e2, fr, g3, e3, op, LE, false, env, r, x, b);
  }

  // ----- every expression -----

  ghost predicate Ready(ops: Ops, g: Gen, env: Env, r: Regs) {
    && WFGen(g) && g.ok && g.nactvar <= g.freereg
    && env.ops == ops && NegationKeepsNumbers(ops) && Clean(g, r)
  }

  ghost predicate Compiled(ops: Ops, g: Gen, e: Expr, res: (Gen, AExp), env: Env, r: Regs) {
    && Inv(ops, res.0, res.1, g.freereg)
    && Sem(res.0, res.1, g.freereg, -1, env, r, Start(g, env, r, e))
    && Frame(g, NoExp(), res.0, res.1)
    && RawConst(res.0, res.1)
  }

  /** A descriptor made without emitting code. */
  lemma LeafSem(ops: Ops, g: Gen, e: Expr, g': Gen, e': AExp, env: Env, r: Regs)
    requires Ready(ops, g, env, r) && g' == g.(consts := g'.consts) && !HasJumps(e')
    requires !e'.k.VJMP? && !e'.k.VRELOCABLE? && !e'.k.VNONRELOC? && !e'.k.VINDEXED?
    requires KindOk(ops, g', e') && RawConst(g', e')
    requires forall r0 :: ValueHere(g', e', env, r0) == Eval(env, r0, e)
    ensures Compiled(ops, g, e, (g', e'), env, r)
  {
    hide RunFrom, WFCode, KindOk, ValueHere, Eval;
    NoJumpLists(g', e');
    LeafFrame(g, g', e');
  }

  /** Literals that need no constant. */
  lemma CompileLiteral(ops: Ops, g: Gen, n: Num)
    ensures Compile(ops, g, ENum(n)) == (g, InitExp(VKNUM, 0).(nval := n))
    ensures Compile(ops, g, ENil) == (g, InitExp(VNIL, 0))
    ensures Compile(ops, g, ETrue) == (g, InitExp(VTRUE, 0))
    ensures Compile(ops, g, EFalse) == (g, InitExp(VFALSE, 0))
  {
    hide AddK, Exp2AnyReg, Exp2Val, Indexed, DischargeVars, Prefix, Infix, Posfix;
  }

  lemma CompileString(ops: Ops, g: Gen, s: string)
    ensures Compile(ops, g, EStr(s)) == (AddK(g, Str(s)).0, InitExp(VK, AddK(g, Str(s)).1))
  {
    hide AddK, Exp2AnyReg, Exp2Val, Indexed, DischargeVars, Prefix, Infix, Posfix;
  }

  lemma CompileLocal(ops: Ops, g: Gen, i: nat)
    ensures Compile(ops, g, ELocal(i)) == (g, InitExp(VLOCAL, i))
  {
    hide AddK, Exp2AnyReg, Exp2Val, Indexed, DischargeVars, Prefix, Infix, Posfix;
  }

  lemma CompileUpval(ops: Ops, g: Gen, i: nat)
    ensures Compile(ops, g, EUpval(i)) == (g, InitExp(VUPVAL, i))
  {
    hide AddK, Exp2AnyReg, Exp2Val, Indexed, DischargeVars, Prefix, Infix, Posfix;
  }

  lemma CompileGlobal(ops: Ops, g: Gen, s: string)
    ensures Compile(ops, g, EGlobal(s)) == (AddK(g, Str(s)).0, InitExp(VGLOBAL, AddK(g, Str(s)).1))
  {
    hide AddK, Exp2AnyReg, Exp2Val, Indexed, DischargeVars, Prefix, Infix, Posfix;
  }

  predicate NeedsNoConstant(e: Expr) {
    e.ENil? || e.ETrue? || e.EFalse? || e.ENum? || e.ELocal? || e.EUpval?
  }

  lemma LeafValue(ops: Ops, g: Gen, e: Expr, env: Env)
    requires NeedsNoConstant(e) && WFExpr(ops, e, g.nactvar)
    ensures var (g', e') := Compile(ops, g, e);
            && g' == g && !HasJumps(e') && KindOk(ops, g', e') && RawConst(g', e')
            && !e'.k.VJMP? && !e'.k.VRELOCABLE? && !e'.k.VNONRELOC? && !e'.k.VINDEXED?
            && forall r0 :: ValueHere(g', e', env, r0) == Eval(env, r0, e)
  {
    hide Compile;
    CompileLiteral(ops, g, if e.ENum? then e.n else Num(0));
    CompileLocal(ops, g, if e.ELocal? then e.reg else 0);
    CompileUpval(ops, g, if e.EUpval? then e.idx else 0);
  }

  lemma LeafOk(ops: Ops, g: Gen, e: Expr, env: Env, r: Regs)
    requires Ready(ops, g, env, r) && WFExpr(ops, e, g.nactvar)
    requires !e.EIndex? && !e.EParen? && !e.EUn? && !e.EBin?
    requires Compile(ops, g, e).0.ok && Compile(ops, g, e).0.consts <= env.k
    ensures Compiled(ops, g, e, Compile(ops, g, e), env, r)
  {
    hide RunFrom, WFGen, Sane, Clean, Sem, AddK, Compiled, Compile, Eval, ValueHere, KindOk, WFExpr;
    if e.EStr? {
      CompileString(ops, g, e.s);
      AddKOk(g, Str(e.s), env);
      StringLeaf(ops, g, e, Str(e.s), VK, env, r);
    } else if e.EGlobal? {
      CompileGlobal(ops, g, e.name);
      AddKOk(g, Str(e.name), env);
      StringLeaf(ops, g, e, Str(e.name), VGLOBAL, env, r);
    } else {
      LeafValue(ops, g, e, env);
      var (g', e') := Compile(ops, g, e);
      LeafSem(ops, g, e, g', e', env, r);
    }
  }

  lemma StringLeaf(ops: Ops, g: Gen, e: Expr, v: Value, k: Kind, env: Env, r: Regs)
    requires Ready(ops, g, env, r) && v.Str? && AddK(g, v).0.ok && AddK(g, v).0.consts <= env.k
    requires (k.VK? && e == EStr(v.s)) || (k.VGLOBAL? && e == EGlobal(v.s))
    ensures var (g1, i) := AddK(g, v);
            Compiled(ops, g, e, (g1, InitExp(k, i)), env, r)
  {
    hide RunFrom, WFGen, Sane, Clean, Sem, AddK, Compiled, Ready;
    AddKOk(g, v, env);
    var (g1, i) := AddK(g, v);
    ReadyParts(ops, g, g, env, r);
    LeafSem(ops, g, e, g1, InitExp(k, i), env, r);
  }

  lemma CompiledParts(ops: Ops, g: Gen, e: Expr, g': Gen, e': AExp, env: Env, r: Regs)
    requires Compiled(ops, g, e, (g', e'), env, r)
    ensures Inv(ops, g', e', g.freereg) && Sem(g', e', g.freereg, -1, env, r, Start(g, env, r, e))
    ensures Frame(g, NoExp(), g', e') && RawConst(g', e')
  {
  }

  lemma ReadyParts(ops: Ops, g: Gen, g': Gen, env: Env, r: Regs)
    requires Ready(ops, g, env, r) && Grows(g, g')
    ensures Clean(g', r) && env.ops == ops && g.nactvar <= g.freereg && NegationKeepsNumbers(ops) && g.ok
  {
  }

  lemma LeafFrame(g: Gen, g': Gen, e': AExp)
    requires g'.code == g.code && g'.jpc == g.jpc && !HasJumps(e') && !e'.k.VJMP?
    ensures Frame(g, NoExp(), g', e')
    ensures forall j :: OpenAt(g.code, j) && j !in g.jpc ==> Outer(g', e', j)
  {
  }

  /** A state between the two operands of a strict operator is ready for the second. */
  lemma ReadyAgain(ops: Ops, g: Gen, g2: Gen, e2: AExp, fr: int, env: Env, r: Regs, x: Ctx)
    requires Ready(ops, g, env, r) && Kept(ops, g2, e2, fr) && Sem(g2, e2, fr, -1, env, r, x) && Grows(g, g2)
    ensures Ready(ops, g2, env, r)
  {
    hide RunFrom, WFCode;
  }

  lemma ReadyBranch(ops: Ops, g: Gen, g1: Gen, e1: AExp, g2: Gen, e2: AExp, pass: bool, fr: int, env: Env, r: Regs,
      x: Ctx)
    requires Ready(ops, g, env, r) && Jumped(ops, g1, e1, g2, e2, pass, fr, -1, env, r, x) && Grows(g, g2)
        && g.nactvar <= fr
    ensures Ready(ops, g2, env, r)
  {
    hide RunFrom, WFCode;
  }

  /** Frames through the first operand, what was kept of it, and the second operand. */
  lemma ChainFrame(g: Gen, g1: Gen, e1: AExp, g2: Gen, e2: AExp, g3: Gen, e3: AExp)
    requires Frame(g, NoExp(), g1, e1) && Frame(g1, e1, g2, e2) && Frame(g2, NoExp(), g3, e3)
    requires !HasJumps(e2) && !e2.k.VJMP?
    ensures Frame(g, NoExp(), g3, e3)
  {
    FrameTrans(g, NoExp(), g1, e1, g2, e2);
    FrameNoLists(g, NoExp(), NoExp(), g2, e2);
    forall j | Outer(g, NoExp(), j) ensures Outer(g3, e3, j) && Control(g3.code, j) == Control(g.code, j) {
      assert Outer(g2, e2, j);
      assert Outer(g2, NoExp(), j);
    }
  }

  /** Compilation preserves meaning: in whatever way control reaches the place where the
      code of e begins, running on either fails exactly when evaluating e is an error, or
      delivers the value of e where the descriptor says, with every register below the
      first free one unchanged. */
  lemma {:induction false} CompileOk(ops: Ops, g: Gen, e: Expr, env: Env, r: Regs)
    requires Ready(ops, g, env, r) && WFExpr(ops, e, g.nactvar)
    requires Compile(ops, g, e).0.ok && Compile(ops, g, e).0.consts <= env.k
    ensures Compiled(ops, g, e, Compile(ops, g, e), env, r)
    decreases e
  {
    match e
    case EParen(e1) =>
      CompileOk(ops, g, e1, env, r);
      CompileParen(ops, g, e1, env, r);
    case EUn(op, e1) =>
      hide Compiled, Ready, Prefix;
      CompileOk(ops, g, e1, env, r);
      CompileUn(ops, g, op, e1, env, r);
    case EIndex(t, k) => CompileIndex(ops, g, t, k, env, r);
    case EBin(op, a, b) =>
      if op.AND? || op.OR? {
        CompileBool(ops, g, op, a, b, env, r);
      } else {
        CompileStrict(ops, g, op, a, b, env, r);
      }
    case _ => LeafOk(ops, g, e, env, r);
  }

  /** The defining equations of Compile, one at a time. */
  lemma CompileParenIs(ops: Ops, g: Gen, x: Expr)
    ensures Compile(ops, g, EParen(x)) == DischargeVars(Compile(ops, g, x).0, Compile(ops, g, x).1)
  {
    hide AddK, Exp2AnyReg, Exp2Val, Indexed, DischargeVars, Prefix, Infix, Posfix;
  }

  lemma CompileUnIs(ops: Ops, g: Gen, op: UnOpr, x: Expr)
    ensures Compile(ops, g, EUn(op, x)) == Prefix(ops, Compile(ops, g, x).0, op, Compile(ops, g, x).1)
  {
    hide AddK, Exp2AnyReg, Exp2Val, Indexed, DischargeVars, Prefix, Infix, Posfix;
  }

  lemma CompileParen(ops: Ops, g: Gen, e: Expr, env: Env, r: Regs)
    requires Ready(ops, g, env, r) && Compiled(ops, g, e, Compile(ops, g, e), env, r)
    requires Compile(ops, g, EParen(e)).0.ok
    ensures Compiled(ops, g, EParen(e), Compile(ops, g, EParen(e)), env, r)
  {
    hide RunFrom, WFGen, ListsOk, Frame, Sem, DischargeVars, Compile, Eval, At;
    CompileParenIs(ops, g, e);
    var (g1, e1) := Compile(ops, g, e);
    var x := Start(g, env, r, e);
    StartNested(g, env, r, e, NOT);
    DischargeVarsOk(ops, g1, e1, g.freereg, -1, env, r, x);
    var (g2, e2) := DischargeVars(g1, e1);
    FrameTrans(g, NoExp(), g1, e1, g2, e2);
  }

  lemma StartNested(g: Gen, env: Env, r: Regs, e: Expr, op: UnOpr)
    ensures Start(g, env, r, EParen(e)) == Start(g, env, r, e)
    ensures Start(g, env, r, EUn(op, e)) == UnCtx(env, op, Start(g, env, r, e))
  {
    hide At, Sane;
  }

  lemma CompileUn(ops: Ops, g: Gen, op: UnOpr, e: Expr, env: Env, r: Regs)
    requires Ready(ops, g, env, r) && Compiled(ops, g, e, Compile(ops, g, e), env, r)
    requires Compile(ops, g, EUn(op, e)).0.ok && Compile(ops, g, EUn(op, e)).0.consts <= env.k
    ensures Compiled(ops, g, EUn(op, e), Compile(ops, g, EUn(op, e)), env, r)
  {
    hide RunFrom, WFGen, ListsOk, Frame, Sem, Prefix, Compile, Eval, At;
    CompileUnIs(ops, g, op, e);
    var (g1, e1) := Compile(ops, g, e);
    var x := Start(g, env, r, e);
    StartNested(g, env, r, e, op);
    PrefixOk(ops, g1, e1, op, g.freereg, env, r, x);
    var (g2, e2) := Prefix(ops, g1, op, e1);
    FrameTrans(g, NoExp(), g1, e1, g2, e2);
  }

  // ----- the glue of two-operand expressions -----

  lemma StartBin(g: Gen, env: Env, r: Regs, op: BinOpr, a: Expr, b: Expr)
    ensures !op.AND? && !op.OR? ==> Start(g, env, r, EBin(op, a, b)) == BinCtx(env, op, Start(g, env, r, a), b)
    ensures op.AND? ==> Start(g, env, r, EBin(op, a, b)) == BoolCtx(env, true, Start(g, env, r, a), b)
    ensures op.OR? ==> Start(g, env, r, EBin(op, a, b)) == BoolCtx(env, false, Start(g, env, r, a), b)
  {
    hide At;
  }

  lemma StartIndex(g: Gen, env: Env, r: Regs, t: Expr, k: Expr)
    ensures Start(g, env, r, EIndex(t, k)) == IndexCtx(env, Start(g, env, r, t), k)
  {
    hide At;
  }

  lemma StrictFirst(ops: Ops, g: Gen, op: BinOpr, a: Expr, g1: Gen, e1: AExp, env: Env, r: Regs)
    requires Ready(ops, g, env, r) && Compiled(ops, g, a, (g1, e1), env, r) && !op.AND? && !op.OR? && Grows(g, g1)
    requires Infix(g1, op, e1).0.ok && Infix(g1, op, e1).0.consts <= env.k
    ensures var (g2, e2) := Infix(g1, op, e1);
            && Ready(ops, g2, env, r) && Kept(ops, g2, e2, g.freereg)
                && Sem(g2, e2, g.freereg, -1, env, r, Start(g, env, r, a))
            && Frame(g1, e1, g2, e2)
            && (!op.ARITH? ==> !e2.k.VKNUM?)
            && (op.CONCAT? ==> e2.k.VNONRELOC? && e2.info == g.freereg && g2.freereg == g.freereg + 1)
  {
    hide RunFrom, Ready, Compiled, Sem, Frame, Infix, Inv, Kept;
    CompiledParts(ops, g, a, g1, e1, env, r);
    ReadyParts(ops, g, g1, env, r);
    InfixOk(ops, g1, e1, op, g.freereg, env, r, Start(g, env, r, a));
    var (g2, e2) := Infix(g1, op, e1);
    ReadyAgain(ops, g, g2, e2, g.freereg, env, r, Start(g, env, r, a));
  }

  lemma MakeReady2(ops: Ops, g2: Gen, e2: AExp, fr: int, b: Expr, g3: Gen, e3: AExp, env: Env, r: Regs, x: Ctx)
    requires Ready(ops, g2, env, r) && Kept(ops, g2, e2, fr) && Sem(g2, e2, fr, -1, env, r, x)
    requires Compiled(ops, g2, b, (g3, e3), env, r) && WFExpr(ops, b, g2.nactvar) && Grows(g2, g3)
    ensures Ready2(ops, g2, e2, fr, g3, e3, env, r, x, b)
  {
    hide Ready, Compiled, Sem, Kept, Inv;
    CompiledParts(ops, g2, b, g3, e3, env, r);
    ReadyParts(ops, g2, g3, env, r);
  }

  lemma StrictSecond(ops: Ops, g: Gen, op: BinOpr, a: Expr, b: Expr, g1: Gen, e1: AExp, g3: Gen, e3: AExp, env: Env,
      r: Regs)
    requires Ready(ops, g, env, r) && Compiled(ops, g, a, (g1, e1), env, r) && !op.AND? && !op.OR? && Grows(g, g1)
    requires Infix(g1, op, e1).0.ok && Infix(g1, op, e1).0.consts <= env.k
    requires Compiled(ops, Infix(g1, op, e1).0, b, (g3, e3), env, r) && Grows(Infix(g1, op, e1).0, g3)
    requires WFExpr(ops, b, g.nactvar)
    requires Posfix(ops, g3, op, Infix(g1, op, e1).1, e3).0.ok
        && Posfix(ops, g3, op, Infix(g1, op, e1).1, e3).0.consts <= env.k
    ensures Compiled(ops, g, EBin(op, a, b), Posfix(ops, g3, op, Infix(g1, op, e1).1, e3), env, r)
  {
    hide RunFrom, Ready, Sem, Frame, Infix, Posfix, Kept, Ready2, Inv, Start, WFExpr, HasJumps;
    var (g2, e2) := Infix(g1, op, e1);
    var x := Start(g, env, r, a);
    StrictFirst(ops, g, op, a, g1, e1, env, r);
    MakeReady2(ops, g2, e2, g.freereg, b, g3, e3, env, r, x);
    PosfixStrict(ops, g2, e2, g.freereg, g3, e3, op, env, r, x, b);
    KeptPlain(ops, g2, e2, g.freereg);
    ChainFrame(g, g1, e1, g2, e2, g3, e3);
    var (g4, e4) := Posfix(ops, g3, op, e2, e3);
    FrameTrans(g, NoExp(), g3, e3, g4, e4);
    StartBin(g, env, r, op, a, b);
  }

  lemma KeptPlain(ops: Ops, g: Gen, e: AExp, fr: int)
    requires Kept(ops, g, e, fr)
    ensures !HasJumps(e) && !e.k.VJMP? && Inv(ops, g, e, fr)
  {
  }

  lemma IndexFirst(ops: Ops, g: Gen, t: Expr, g1: Gen, e1: AExp, env: Env, r: Regs)
    requires Ready(ops, g, env, r) && Compiled(ops, g, t, (g1, e1), env, r) && Grows(g, g1)
    requires Exp2AnyReg(g1, e1).0.ok && Exp2AnyReg(g1, e1).0.consts <= env.k
    ensures var (g2, e2) := Exp2AnyReg(g1, e1);
            && Ready(ops, g2, env, r) && Kept(ops, g2, e2, g.freereg)
                && Sem(g2, e2, g.freereg, -1, env, r, Start(g, env, r, t))
            && Frame(g1, e1, g2, e2) && e2.k.VNONRELOC?
  {
    hide RunFrom, Ready, Compiled, Sem, Frame, Exp2AnyReg, Inv;
    CompiledParts(ops, g, t, g1, e1, env, r);
    ReadyParts(ops, g, g1, env, r);
    Exp2AnyRegOk(ops, g1, e1, g.freereg, -1, env, r, Start(g, env, r, t));
    var (g2, e2) := Exp2AnyReg(g1, e1);
    ReadyAgain(ops, g, g2, e2, g.freereg, env, r, Start(g, env, r, t));
  }

  lemma IndexSecond(ops: Ops, g: Gen, t: Expr, k: Expr, g1: Gen, e1: AExp, g3: Gen, e3: AExp, env: Env, r: Regs)
    requires Ready(ops, g, env, r) && Compiled(ops, g, t, (g1, e1), env, r) && Grows(g, g1)
    requires Exp2AnyReg(g1, e1).0.ok && Exp2AnyReg(g1, e1).0.consts <= env.k
    requires Compiled(ops, Exp2AnyReg(g1, e1).0, k, (g3, e3), env, r) && Grows(Exp2AnyReg(g1, e1).0, g3)
    requires WFExpr(ops, k, g.nactvar)
    requires var (g4, e4) := Exp2Val(g3, e3);
             Indexed(g4, Exp2AnyReg(g1, e1).1, e4).0.ok && Indexed(g4, Exp2AnyReg(g1, e1).1, e4).0.consts <= env.k
    ensures var (g4, e4) := Exp2Val(g3, e3);
            Compiled(ops, g, EIndex(t, k), Indexed(g4, Exp2AnyReg(g1, e1).1, e4), env, r)
  {
    hide RunFrom, Ready, Sem, Frame, Exp2AnyReg, Exp2Val, Kept, Inv, Start, WFExpr, HasJumps, Indexed;
    var (g2, e2) := Exp2AnyReg(g1, e1);
    var (g4, e4) := Exp2Val(g3, e3);
    var x := Start(g, env, r, t);
    IndexFirst(ops, g, t, g1, e1, env, r);
    MakeReady2(ops, g2, e2, g.freereg, k, g3, e3, env, r, x);
    assert Grows(g4, Indexed(g4, e2, e4).0);
    Exp2ValOk(ops, g3, e3, g2.freereg, -1, env, r, Start(g2, env, r, k));
    assert Ready2(ops, g2, e2, g.freereg, g4, e4, env, r, x, k);
    IndexedOk(ops, g2, e2, g.freereg, g4, e4, env, r, x, k);
    KeptPlain(ops, g2, e2, g.freereg);
    ChainFrame(g, g1, e1, g2, e2, g3, e3);
    FrameTrans(g, NoExp(), g3, e3, g4, e4);
    var (g5, e5) := Indexed(g4, e2, e4);
    FrameTrans(g, NoExp(), g4, e4, g5, e5);
    StartIndex(g, env, r, t, k);
  }

  lemma BoolFirst(ops: Ops, g: Gen, pass: bool, a: Expr, g1: Gen, e1: AExp, env: Env, r: Regs)
    requires Ready(ops, g, env, r) && Compiled(ops, g, a, (g1, e1), env, r) && Grows(g, g1)
    requires Infix(g1, if pass then AND else OR, e1).0.ok && Infix(g1, if pass then AND else OR, e1).0.consts <= env.k
    ensures var (g2, e2) := Infix(g1, if pass then AND else OR, e1);
            && Ready(ops, g2, env, r)
            && Jumped(ops, g1, e1, g2, e2.(k := VNONRELOC), pass, g.freereg, -1, env, r, Start(g, env, r, a))
            && (if pass then e2.t == [] else e2.f == [])
  {
    hide RunFrom, Ready, Compiled, Sem, Frame, GoIfTrue, GoIfFalse, Inv, Jumped;
    CompiledParts(ops, g, a, g1, e1, env, r);
    ReadyParts(ops, g, g1, env, r);
    GoIfOk(ops, g1, e1, pass, g.freereg, -1, env, r, Start(g, env, r, a));
    var (g2, e2) := Infix(g1, if pass then AND else OR, e1);
    ReadyBranch(ops, g, g1, e1, g2, e2.(k := VNONRELOC), pass, g.freereg, env, r, Start(g, env, r, a));
  }

  lemma BoolSecond(ops: Ops, g: Gen, pass: bool, a: Expr, b: Expr, g1: Gen, e1: AExp, g2: Gen, e2: AExp, g3: Gen,
      e3: AExp, env: Env, r: Regs)
    requires Ready(ops, g, env, r) && Compiled(ops, g, a, (g1, e1), env, r)
    requires Jumped(ops, g1, e1, g2, e2, pass, g.freereg, -1, env, r, Start(g, env, r, a))
        && (if pass then e2.t == [] else e2.f == [])
    requires Compiled(ops, g2, b, (g3, e3), env, r) && WFExpr(ops, b, g.nactvar) && g2.nactvar == g.nactvar
    requires Posfix(ops, g3, if pass then AND else OR, e2, e3).0.ok
    ensures Compiled(ops, g, EBin(if pass then AND else OR, a, b), Posfix(ops, g3, if pass then AND else OR, e2, e3),
        env, r)
  {
    hide RunFrom, WFGen, Ready, Sem, Frame, Posfix, BranchSem, Inv, Start, WFExpr, ListsOk;
    ReadyParts(ops, g, g, env, r);
    PosfixBool(ops, g2, e2, pass, g.freereg, g3, e3, env, r, Start(g, env, r, a), b);
    var (g4, e4) := Posfix(ops, g3, if pass then AND else OR, e2, e3);
    FrameTrans(g, NoExp(), g1, e1, g2, e2);
    FrameTrans(g, NoExp(), g2, e2, g4, e4);
    StartBin(g, env, r, if pass then AND else OR, a, b);
  }

  lemma CompileIndex(ops: Ops, g: Gen, t: Expr, k: Expr, env: Env, r: Regs)
    requires Ready(ops, g, env, r) && WFExpr(ops, EIndex(t, k), g.nactvar)
    requires Compile(ops, g, EIndex(t, k)).0.ok && Compile(ops, g, EIndex(t, k)).0.consts <= env.k
    ensures Compiled(ops, g, EIndex(t, k), Compile(ops, g, EIndex(t, k)), env, r)
    decreases EIndex(t, k), 0
  {
    hide RunFrom, Ready, Compiled, Exp2AnyReg, Exp2Val, Indexed, Kept, Sem, Frame;
    var (g1, e1) := Compile(ops, g, t);
    var (g2, e2) := Exp2AnyReg(g1, e1);
    var (g3, e3) := Compile(ops, g2, k);
    var (g4, e4) := Exp2Val(g3, e3);
    assert Grows(g4, Indexed(g4, e2, e4).0);
    CompileOk(ops, g, t, env, r);
    IndexFirst(ops, g, t, g1, e1, env, r);
    CompileOk(ops, g2, k, env, r);
    IndexSecond(ops, g, t, k, g1, e1, g3, e3, env, r);
  }

  lemma CompileStrict(ops: Ops, g: Gen, op: BinOpr, a: Expr, b: Expr, env: Env, r: Regs)
    requires Ready(ops, g, env, r) && WFExpr(ops, EBin(op, a, b), g.nactvar) && !op.AND? && !op.OR?
    requires Compile(ops, g, EBin(op, a, b)).0.ok && Compile(ops, g, EBin(op, a, b)).0.consts <= env.k
    ensures Compiled(ops, g, EBin(op, a, b), Compile(ops, g, EBin(op, a, b)), env, r)
    decreases EBin(op, a, b), 0
  {
    hide RunFrom, Ready, Compiled, Infix, Posfix, Kept, Sem, Frame;
    var (g1, e1) := Compile(ops, g, a);
    var (g2, e2) := Infix(g1, op, e1);
    var (g3, e3) := Compile(ops, g2, b);
    assert Grows(g3, Posfix(ops, g3, op, e2, e3).0);
    CompileOk(ops, g, a, env, r);
    StrictFirst(ops, g, op, a, g1, e1, env, r);
    CompileOk(ops, g2, b, env, r);
    StrictSecond(ops, g, op, a, b, g1, e1, g3, e3, env, r);
  }

  lemma CompileBool(ops: Ops, g: Gen, op: BinOpr, a: Expr, b: Expr, env: Env, r: Regs)
    requires Ready(ops, g, env, r) && WFExpr(ops, EBin(op, a, b), g.nactvar) && (op.AND? || op.OR?)
    requires Compile(ops, g, EBin(op, a, b)).0.ok && Compile(ops, g, EBin(op, a, b)).0.consts <= env.k
    ensures Compiled(ops, g, EBin(op, a, b), Compile(ops, g, EBin(op, a, b)), env, r)
    decreases EBin(op, a, b), 0
  {
    hide RunFrom, Ready, Compiled, Infix, Posfix, Sem, Frame, Jumped, At, ListsOk, WFGen;
    var pass := op.AND?;
    var (g1, e1) := Compile(ops, g, a);
    var (g2, e2) := Infix(g1, op, e1);
    var (g3, e3) := Compile(ops, g2, b);
    assert Grows(g3, Posfix(ops, g3, op, e2, e3).0);
    CompileOk(ops, g, a, env, r);
    BoolFirst(ops, g, pass, a, g1, e1, env, r);
    CompileOk(ops, g2, b, env, r);
    PosfixIgnoresKind(ops, g3, op, e2, e3);
    BoolSecond(ops, g, pass, a, b, g1, e1, g2, e2.(k := VNONRELOC), g3, e3, env, r);
  }

  lemma PosfixIgnoresKind(ops: Ops, g3: Gen, op: BinOpr, e2: AExp, e3: AExp)
    requires op.AND? || op.OR?
    ensures Posfix(ops, g3, op, e2, e3) == Posfix(ops, g3, op, e2.(k := VNONRELOC), e3)
  {
  }
}
