/** Expressions as operands: exp2nextreg, exp2anyreg, exp2val, exp2RK. */
module Operands {
  import opened Common
  import opened LuaValues
  import opened Opcodes
  import opened PartialCode
  import opened CodeGen
  import opened GenInvariant
  import opened ExpMeaning
  import opened RegisterLoads
  import opened JumpClosing

  /** The registers of the generator do not take part in what code means. */
  lemma RegsOnly(ops: Ops, g: Gen, e: AExp, freereg: int, maxstack: int, fr: int, ex: int, env: Env, r: Regs, x: Ctx)
    requires WFGen(g) && g.ok && ListsOk(g, e) && KindOk(ops, g, e) && Sem(g, e, fr, ex, env, r, x)
    requires g.nactvar <= freereg <= maxstack < MAXSTACK
    ensures var g' := g.(freereg := freereg, maxstack := maxstack);
            WFGen(g') && ListsOk(g', e) && KindOk(ops, g', e) && Sem(g', e, fr, ex, env, r, x) && Frame(g, e, g', e)
  {
    hide RunFrom, WFCode;
  }

  lemma Exp2NextRegOk(ops: Ops, g: Gen, e: AExp, fr: int, ex: int, env: Env, r: Regs, x: Ctx)
    requires Inv(ops, g, e, fr) && Sem(g, e, fr, ex, env, r, x)
    requires Exp2NextReg(g, e).0.ok && Exp2NextReg(g, e).0.consts <= env.k && Clean(g, r)
    ensures var (g', e') := Exp2NextReg(g, e);
            && Inv(ops, g', e', fr) && Sem(g', e', fr, ex, env, r, x) && Frame(g, e, g', e')
            && e'.k.VNONRELOC? && e'.info == fr && !HasJumps(e') && g'.freereg == fr + 1
  {
    hide RunFrom, Sem, Frame, DischargeVars, Exp2Reg, WFCode, AllOpen, TargetsLabelled, Apart, CondList;
    DischargeVarsOk(ops, g, e, fr, ex, env, r, x);
    var (g1, e1) := DischargeVars(g, e);
    var g2 := ReserveRegs(FreeExp(g1, e1), 1);
    assert FreeExp(g1, e1).freereg == fr;
    assert g2 == g1.(freereg := g2.freereg, maxstack := g2.maxstack);
    RegsOnly(ops, g1, e1, g2.freereg, g2.maxstack, fr, ex, env, r, x);
    Exp2RegOk(ops, g2, e1, fr, fr, ex, env, r, x);
    var (g', e') := Exp2NextReg(g, e);
    FrameTrans(g, e, g1, e1, g2, e1);
    FrameTrans(g, e, g2, e1, g', e');
    NoLists(g', e');
  }

  lemma Exp2AnyRegOk(ops: Ops, g: Gen, e: AExp, fr: int, ex: int, env: Env, r: Regs, x: Ctx)
    requires Inv(ops, g, e, fr) && Sem(g, e, fr, ex, env, r, x)
    requires Exp2AnyReg(g, e).0.ok && Exp2AnyReg(g, e).0.consts <= env.k && Clean(g, r)
    ensures var (g', e') := Exp2AnyReg(g, e);
            && Inv(ops, g', e', fr) && Sem(g', e', fr, ex, env, r, x) && Frame(g, e, g', e')
            && e'.k.VNONRELOC? && !HasJumps(e')
  {
    hide RunFrom, Sem, Frame, DischargeVars, Exp2Reg, Exp2NextReg, WFGen, ListsOk;
    DischargeVarsOk(ops, g, e, fr, ex, env, r, x);
    var (g1, e1) := DischargeVars(g, e);
    var (g', e') := Exp2AnyReg(g, e);
    if e1.k.VNONRELOC? && !HasJumps(e1) {
    } else if e1.k.VNONRELOC? && e1.info >= g1.nactvar {
      Exp2RegOk(ops, g1, e1, fr, fr, ex, env, r, x);
      FrameTrans(g, e, g1, e1, g', e');
      NoLists(g', e');
    } else {
      Exp2NextRegOk(ops, g1, e1, fr, ex, env, r, x);
      FrameTrans(g, e, g1, e1, g', e');
    }
  }

  lemma NoLists(g: Gen, e: AExp)
    requires e.t == [] && e.f == []
    ensures ListsOk(g, e)
  {
  }

  lemma Exp2ValOk(ops: Ops, g: Gen, e: AExp, fr: int, ex: int, env: Env, r: Regs, x: Ctx)
    requires Inv(ops, g, e, fr) && Sem(g, e, fr, ex, env, r, x)
    requires Exp2Val(g, e).0.ok && Exp2Val(g, e).0.consts <= env.k && Clean(g, r)
    ensures var (g', e') := Exp2Val(g, e);
            && Inv(ops, g', e', fr) && Sem(g', e', fr, ex, env, r, x) && Frame(g, e, g', e')
            && !HasJumps(e') && !IsVar(e'.k)
  {
    hide RunFrom, Sem, Frame, DischargeVars, Exp2AnyReg, WFGen, ListsOk;
    if HasJumps(e) {
      Exp2AnyRegOk(ops, g, e, fr, ex, env, r, x);
    } else {
      DischargeVarsOk(ops, g, e, fr, ex, env, r, x);
    }
  }

  /** An operand ready for an instruction: a register or a constant that fits. */
  ghost predicate Settled(g: Gen, e: AExp, rk: int) {
    && !HasJumps(e)
    && (|| (e.k.VNONRELOC? && rk == e.info)
        || (e.k.VK? && rk == RkAsK(e.info) && ConstAt(g, rk)))
  }

  lemma SettledValue(g: Gen, e: AExp, rk: int, env: Env, r: Regs)
    requires Settled(g, e, rk) && g.consts <= env.k && (e.k.VNONRELOC? ==> rk < BITRK)
    ensures ValueHere(g, e, env, r) == Some(RK(env, r, rk))
  {
  }

  /** A constant operand, put in the constant table. */
  lemma ConstOperand(ops: Ops, g: Gen, e: AExp, v: Value, fr: int, ex: int, env: Env, r: Regs, x: Ctx)
    requires Inv(ops, g, e, fr) && Sem(g, e, fr, ex, env, r, x) && !HasJumps(e)
    requires (e.k.VKNUM? && v == Number(e.nval)) || (e.k.VNIL? && v == Nil) || (e.k.VTRUE? && v == Bool(true))
        || (e.k.VFALSE? && v == Bool(false))
    requires AddK(g, v).0.ok && AddK(g, v).0.consts <= env.k && |g.consts| <= MAXINDEXRK
    ensures var (g', i) := AddK(g, v);
            var e' := e.(info := i, k := VK);
            && Inv(ops, g', e', fr) && Sem(g', e', fr, ex, env, r, x) && Frame(g, e, g', e')
            && Settled(g', e', RkAsK(i))
  {
    hide RunFrom, WFGen, WFCode;
    AddKOk(g, v, env);
    ConstsOnly(ops, g, e, AddK(g, v).0, fr, ex, env, r, x);
  }

  lemma Exp2RKOk(ops: Ops, g: Gen, e: AExp, fr: int, ex: int, env: Env, r: Regs, x: Ctx)
    requires Inv(ops, g, e, fr) && Sem(g, e, fr, ex, env, r, x)
    requires Exp2RK(g, e).0.ok && Exp2RK(g, e).0.consts <= env.k && Clean(g, r)
    ensures var (g', e', rk) := Exp2RK(g, e);
            && Inv(ops, g', e', fr) && Sem(g', e', fr, ex, env, r, x) && Frame(g, e, g', e')
            && Settled(g', e', rk)
  {
    hide RunFrom, Sem, Frame, Exp2Val, Exp2AnyReg, WFGen, ListsOk, AddK;
    var (g1, e1) := Exp2Val(g, e);
    var (g', e', rk) := Exp2RK(g, e);
    Exp2ValOk(ops, g, e, fr, ex, env, r, x);
    if (e1.k.VKNUM? || e1.k.VTRUE? || e1.k.VFALSE? || e1.k.VNIL?) && |g1.consts| <= MAXINDEXRK {
      var v := if e1.k.VNIL? then Nil else if e1.k.VKNUM? then Number(e1.nval) else Bool(e1.k.VTRUE?);
      ConstOperand(ops, g1, e1, v, fr, ex, env, r, x);
      FrameTrans(g, e, g1, e1, g', e');
    } else if e1.k.VK? && e1.info <= MAXINDEXRK {
    } else {
      Exp2AnyRegOk(ops, g1, e1, fr, ex, env, r, x);
      FrameTrans(g, e, g1, e1, g', e');
    }
  }

  /** Exactly the first 256 constants can be operands. */
  lemma OperandLimit(g: Gen, e: AExp)
    requires e.k.VK? && !HasJumps(e)
    ensures e.info <= 255 ==> Exp2RK(g, e) == (g, e, 256 + e.info)
    ensures e.info > 255 ==> Exp2RK(g, e) == (Exp2AnyReg(g, e).0, Exp2AnyReg(g, e).1, Exp2AnyReg(g, e).1.info)
  {
    hide Exp2AnyReg;
  }
}
