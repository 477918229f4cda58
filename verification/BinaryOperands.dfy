/** The two operands of a strict binary operator: the first is kept in a register or a
    constant (or is a numeral not emitted yet) while the second is compiled. */
module BinaryOperands {
  import opened Common
  import opened LuaValues
  import opened Opcodes
  import opened PartialCode
  import opened CodeGen
  import opened GenInvariant
  import opened ExpMeaning
  import opened Operands

  /** Local variables are declared; literals are numbers. */
  predicate WFExpr(ops: Ops, e: Expr, n: nat) {
    match e
    case ENum(v) => !ops.isNaN(v)
    case ELocal(i) => i < n
    case EIndex(t, k) => WFExpr(ops, t, n) && WFExpr(ops, k, n)
    case EParen(e1) => WFExpr(ops, e1, n)
    case EUn(_, e1) => WFExpr(ops, e1, n)
    case EBin(_, l, r) => WFExpr(ops, l, n) && WFExpr(ops, r, n)
    case _ => true
  }

  lemma {:induction false} EvalSame(env: Env, r0: Regs, r1: Regs, e: Expr, n: nat)
    requires Same(r0, r1, n, -1) && WFExpr(env.ops, e, n)
    ensures Eval(env, r0, e) == Eval(env, r1, e)
    decreases e
  {
    match e
    case EIndex(t, k) => EvalSame(env, r0, r1, t, n); EvalSame(env, r0, r1, k, n);
    case EParen(e1) => EvalSame(env, r0, r1, e1, n);
    case EUn(_, e1) => EvalSame(env, r0, r1, e1, n);
    case EBin(_, a, b) => EvalSame(env, r0, r1, a, n); EvalSame(env, r0, r1, b, n);
    case _ =>
  }

  /** Runs never end in malformed code, and leave only through somebody's open jump. */
  ghost predicate Sane(g: Gen, env: Env, r: Regs) {
    var o := At(g, env, r);
    o.Reach? || o.Fail? || o.Done? || (o.Exit? && OpenAt(g.code, o.at) && o.at !in g.jpc)
  }

  /** The first operand while the second is compiled. */
  ghost predicate Kept(ops: Ops, g: Gen, e: AExp, fr: int) {
    && Inv(ops, g, e, fr) && !HasJumps(e)
    && (e.k.VKNUM? || (e.k.VK? && ConstAt(g, RkAsK(e.info))) || e.k.VNONRELOC?)
  }

  function KeptRK(e: AExp): int {
    if e.k.VK? then RkAsK(e.info) else e.info
  }

  /** Both operands are in place: x is the context of the first, b the second operand. */
  ghost predicate PairSem(g: Gen, o1: int, o2: int, fr: int, env: Env, r: Regs, x: Ctx, b: Expr) {
    var out := At(g, env, r);
    match x
    case Any => true
    case Dead(o) => out == o && (o.Fail? || o.Done? || (o.Exit? && OpenAt(g.code, o.at) && o.at !in g.jpc))
    case Live(r0, v1) =>
      match out
      case Reach(r3) =>
        Same(r0, r3, fr, -1) && v1 == Some(RK(env, r3, o1)) && Eval(env, r0, b) == Some(RK(env, r3, o2))
      case Fail => v1.None? || Eval(env, r0, b).None?
      case _ => false
  }

  /** The context in which an expression starts at generator state g. */
  ghost function Start(g: Gen, env: Env, r: Regs, e: Expr): Ctx {
    if !Sane(g, env, r) then Any
    else
      match At(g, env, r)
      case Reach(r0) => Live(r0, Eval(env, r0, e))
      case o => Dead(o)
  }

  lemma SaneAfter(g: Gen, e: AExp, fr: int, env: Env, r: Regs, x: Ctx)
    requires WFGen(g) && Sem(g, e, fr, -1, env, r, x) && !x.Any? && !e.k.VRELOCABLE? && !e.k.VJMP? && !HasJumps(e)
    ensures Sane(g, env, r)
  {
    hide RunFrom;
  }

  lemma KeptValue(ops: Ops, g: Gen, e: AExp, fr: int, env: Env, r1: Regs, r2: Regs)
    requires Kept(ops, g, e, fr) && !e.k.VKNUM? && Same(r1, r2, g.freereg, -1) && g.consts <= env.k
    ensures ValueHere(g, e, env, r1) == Some(RK(env, r2, KeptRK(e)))
  {
    hide WFGen, ListsOk;
  }

  lemma SettledHere(ops: Ops, g: Gen, e: AExp, fr: int, rk: int, env: Env, r: Regs)
    requires Inv(ops, g, e, fr) && Settled(g, e, rk) && g.consts <= env.k
    ensures ValueHere(g, e, env, r) == Some(RK(env, r, rk))
  {
    hide ListsOk;
    SettledValue(g, e, rk, env, r);
  }

  /** The operands after the second one has been settled. */
  lemma PairSettled(ops: Ops, g2: Gen, e2: AExp, fr: int, x: Ctx, g4: Gen, e4: AExp, o2: int, env: Env, r: Regs,
      b: Expr)
    requires Kept(ops, g2, e2, fr) && !e2.k.VKNUM? && Sem(g2, e2, fr, -1, env, r, x)
    requires WFExpr(ops, b, g2.nactvar) && env.ops == ops
    requires Inv(ops, g4, e4, g2.freereg) && Settled(g4, e4, o2)
        && Sem(g4, e4, g2.freereg, -1, env, r, Start(g2, env, r, b))
    requires g4.nactvar == g2.nactvar && g2.consts <= g4.consts <= env.k
    ensures PairSem(g4, KeptRK(e2), o2, fr, env, r, x, b)
  {
    var o := At(g2, env, r);
    var o4 := At(g4, env, r);
    assert CodeOutcome(g2, e2, env, r) == o && CodeOutcome(g4, e4, env, r) == o4;
    assert g2.nactvar <= fr <= g2.freereg;
    if o.Reach? && o4.Reach? && Same(o.regs, o4.regs, g2.freereg, -1) {
      KeptValue(ops, g2, e2, fr, env, o.regs, o4.regs);
      SettledHere(ops, g4, e4, g2.freereg, o2, env, o4.regs);
    }
    hide RunFrom, WFGen, ListsOk, At, Inv, RK, ValueHere, Settled, CodeOutcome;
    match x
    case Live(r0, _) =>
      if o.Reach? {
        EvalSame(env, r0, o.regs, b, g2.nactvar);
      }
    case _ =>
  }

  /** A known value, at the current position. */
  ghost function Known(g: Gen, env: Env, r: Regs, v: Value): Ctx {
    if !Sane(g, env, r) then Any
    else match At(g, env, r)
    case Reach(r2) => Live(r2, Some(v))
    case o => Dead(o)
  }

  lemma NumeralSem(ops: Ops, g: Gen, e: AExp, env: Env, r: Regs)
    requires WFGen(g) && g.ok && IsNumeral(e) && !ops.isNaN(e.nval)
    ensures Inv(ops, g, e, g.freereg) && Sem(g, e, g.freereg, -1, env, r, Known(g, env, r, Number(e.nval)))
  {
    hide RunFrom, WFCode;
  }

  /** A value settled after e4 leaves e4's operand alone. */
  lemma OperandStays(ops: Ops, g4: Gen, e4: AExp, o2: int, fr2: int, env: Env, r2: Regs, r3: Regs)
    requires Inv(ops, g4, e4, fr2) && Settled(g4, e4, o2) && Same(r2, r3, g4.freereg, -1)
    ensures RK(env, r2, o2) == RK(env, r3, o2)
  {
    hide WFGen, ListsOk;
  }

  /** A numeral kept as first operand is emitted after the second operand. */
  lemma PairNumeral(ops: Ops, g2: Gen, e2: AExp, fr: int, x: Ctx, g4: Gen, e4: AExp, o2: int, env: Env, r: Regs,
      b: Expr)
    requires Kept(ops, g2, e2, fr) && e2.k.VKNUM? && Sem(g2, e2, fr, -1, env, r, x) && Clean(g4, r)
    requires WFExpr(ops, b, g2.nactvar) && env.ops == ops
    requires Inv(ops, g4, e4, fr) && Settled(g4, e4, o2) && Sem(g4, e4, fr, -1, env, r, Start(g2, env, r, b))
    requires g4.nactvar == g2.nactvar && g2.consts <= g4.consts
    requires Exp2RK(g4, e2).0.ok && Exp2RK(g4, e2).0.consts <= env.k
    ensures var (g5, e5, o1) := Exp2RK(g4, e2);
            && PairSem(g5, o1, o2, fr, env, r, x, b)
            && Inv(ops, g5, e5, g4.freereg) && Settled(g5, e5, o1) && Frame(g4, e4, g5, e5)
  {
    hide RunFrom, WFCode, Exp2RK, AllOpen, TargetsLabelled;
    if !x.Any? {
      SaneAfter(g2, e2, fr, env, r, x);
      SaneAfter(g4, e4, fr, env, r, Start(g2, env, r, b));
    }
    NumeralSem(ops, g4, e2, env, r);
    var (g5, e5, o1) := Exp2RK(g4, e2);
    var x4 := Known(g4, env, r, Number(e2.nval));
    Exp2RKOk(ops, g4, e2, g4.freereg, -1, env, r, x4);
    FrameNoLists(g4, e4, e2, g5, e5);
    var o := At(g2, env, r);
    var o4 := At(g4, env, r);
    var o5 := At(g5, env, r);
    assert CodeOutcome(g2, e2, env, r) == o && CodeOutcome(g4, e4, env, r) == o4 && CodeOutcome(g5, e5, env, r) == o5;
    if o4.Reach? && o5.Reach? && Same(o4.regs, o5.regs, g4.freereg, -1) {
      OperandStays(ops, g4, e4, o2, fr, env, o4.regs, o5.regs);
      SettledHere(ops, g4, e4, fr, o2, env, o4.regs);
      SettledHere(ops, g5, e5, g4.freereg, o1, env, o5.regs);
    }
    assert g4.freereg >= fr >= g2.nactvar;
    hide WFGen, ListsOk, At, Inv, RK, Settled, CodeOutcome, Frame;
    match x
    case Live(r0, _) =>
      if o.Reach? {
        EvalSame(env, r0, o.regs, b, g2.nactvar);
      }
    case _ =>
  }

  lemma FrameNoLists(g: Gen, e: AExp, e1: AExp, g': Gen, e': AExp)
    requires Frame(g, e1, g', e') && !HasJumps(e1) && !e1.k.VJMP?
    ensures Frame(g, e, g', e')
  {
    assert forall j :: Outer(g, e, j) ==> Outer(g, e1, j);
  }
}
