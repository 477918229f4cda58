/** The structural half of the lemmas about the code generator: what each step leaves
    well formed, whatever the code means. */
module GenSteps {
  import opened Common
  import opened LuaValues
  import opened Opcodes
  import opened PartialCode
  import opened CodeGen
  import opened GenInvariant
  import opened ExpMeaning
  import opened RegisterLoads
  import opened Operands
  import opened Conditions
  import opened Negation
  import opened BinaryOperands
  import opened Operators

  function AnyEnv(ops: Ops, k: seq<Value>): Env {
    Env(ops, k, i => Nil, v => Nil)
  }

  lemma AnyRun(g: Gen, a: AExp, fr: int, ex: int, env: Env)
    ensures Sem(g, a, fr, ex, env, map[], Any) && Clean(g, map[])
  {
  }

  lemma DischargeVarsKeeps(ops: Ops, g: Gen, a: AExp, fr: int)
    requires Inv(ops, g, a, fr) && DischargeVars(g, a).0.ok
    ensures var (g', a') := DischargeVars(g, a);
            Inv(ops, g', a', fr) && Frame(g, a, g', a') && !IsVar(a'.k) && a'.t == a.t && a'.f == a.f
  {
    hide RunFrom, Sem, Inv, Frame, DischargeVars;
    AnyRun(g, a, fr, -1, AnyEnv(ops, []));
    DischargeVarsOk(ops, g, a, fr, -1, AnyEnv(ops, []), map[], Any);
  }

  lemma Discharge2RegKeeps(ops: Ops, g: Gen, a: AExp, reg: int, fr: int)
    requires Shape(ops, g, a, fr) && !IsVar(a.k) && Discharge2Reg(g, a, reg).0.ok
    ensures var (g', a') := Discharge2Reg(g, a, reg);
            && Shape(ops, g', a', fr) && Frame(g, a, g', a')
            && (if a.k.VJMP? then g' == g && a' == a else a' == a.(info := reg, k := VNONRELOC))
  {
    hide RunFrom, Sem, Shape, Frame, Discharge2Reg, Clean;
    var env := AnyEnv(ops, Discharge2Reg(g, a, reg).0.consts);
    AnyRun(g, a, fr, reg, env);
    Discharge2RegOk(ops, g, a, reg, fr, reg, env, map[], Any);
  }

  lemma Discharge2AnyRegKeeps(ops: Ops, g: Gen, a: AExp, fr: int)
    requires Inv(ops, g, a, fr) && !IsVar(a.k) && !a.k.VJMP? && Discharge2AnyReg(g, a).0.ok
    ensures var (g', a') := Discharge2AnyReg(g, a);
            Inv(ops, g', a', fr) && Frame(g, a, g', a') && a'.k.VNONRELOC? && a'.t == a.t && a'.f == a.f
  {
    hide RunFrom, Sem, Inv, Frame, Discharge2AnyReg, Clean;
    var env := AnyEnv(ops, Discharge2AnyReg(g, a).0.consts);
    AnyRun(g, a, fr, -1, env);
    Discharge2AnyRegOk(ops, g, a, fr, -1, env, map[], Any);
  }

  lemma Exp2NextRegKeeps(ops: Ops, g: Gen, a: AExp, fr: int)
    requires Inv(ops, g, a, fr) && Exp2NextReg(g, a).0.ok
    ensures var (g', a') := Exp2NextReg(g, a);
            && Inv(ops, g', a', fr) && Frame(g, a, g', a')
            && a'.k.VNONRELOC? && a'.info == fr && !HasJumps(a') && g'.freereg == fr + 1
  {
    hide RunFrom, Sem, Inv, Frame, Exp2NextReg, Clean;
    var env := AnyEnv(ops, Exp2NextReg(g, a).0.consts);
    AnyRun(g, a, fr, -1, env);
    Exp2NextRegOk(ops, g, a, fr, -1, env, map[], Any);
  }

  lemma Exp2AnyRegKeeps(ops: Ops, g: Gen, a: AExp, fr: int)
    requires Inv(ops, g, a, fr) && Exp2AnyReg(g, a).0.ok
    ensures var (g', a') := Exp2AnyReg(g, a);
            Inv(ops, g', a', fr) && Frame(g, a, g', a') && a'.k.VNONRELOC? && !HasJumps(a')
  {
    hide RunFrom, Sem, Inv, Frame, Exp2AnyReg, Clean;
    var env := AnyEnv(ops, Exp2AnyReg(g, a).0.consts);
    AnyRun(g, a, fr, -1, env);
    Exp2AnyRegOk(ops, g, a, fr, -1, env, map[], Any);
  }

  lemma Exp2ValKeeps(ops: Ops, g: Gen, a: AExp, fr: int)
    requires Inv(ops, g, a, fr) && Exp2Val(g, a).0.ok
    ensures var (g', a') := Exp2Val(g, a);
            Inv(ops, g', a', fr) && Frame(g, a, g', a') && !HasJumps(a') && !IsVar(a'.k)
  {
    hide RunFrom, Sem, Inv, Frame, Exp2Val, Clean;
    var env := AnyEnv(ops, Exp2Val(g, a).0.consts);
    AnyRun(g, a, fr, -1, env);
    Exp2ValOk(ops, g, a, fr, -1, env, map[], Any);
  }

  lemma Exp2RKKeeps(ops: Ops, g: Gen, a: AExp, fr: int)
    requires Inv(ops, g, a, fr) && Exp2RK(g, a).0.ok
    ensures var (g', a', rk) := Exp2RK(g, a);
            Inv(ops, g', a', fr) && Frame(g, a, g', a') && Settled(g', a', rk)
  {
    hide RunFrom, Sem, Inv, Frame, Exp2RK, Clean, Settled;
    var env := AnyEnv(ops, Exp2RK(g, a).0.consts);
    AnyRun(g, a, fr, -1, env);
    Exp2RKOk(ops, g, a, fr, -1, env, map[], Any);
  }

  lemma JumpOnCondKeeps(ops: Ops, g: Gen, a: AExp, cond: bool, fr: int)
    requires Inv(ops, g, a, fr) && !IsVar(a.k) && !a.k.VJMP? && JumpOnCond(g, a, cond).0.ok
    ensures var (g', l) := JumpOnCond(g, a, cond);
            Branched(ops, g, a, g', l, cond, fr)
  {
    hide RunFrom, Sem, Inv, Frame, JumpOnCond, Clean, Branched, BranchSem;
    var env := AnyEnv(ops, JumpOnCond(g, a, cond).0.consts);
    AnyRun(g, a, fr, -1, env);
    JumpOnCondOk(ops, g, a, cond, fr, -1, env, map[], Any);
  }

  /** The state in which luaK_exp2nextreg loads the value. */
  lemma NextRegShape(ops: Ops, g: Gen, a: AExp, fr: int)
    requires Inv(ops, g, a, fr) && !IsVar(a.k) && ReserveRegs(FreeExp(g, a), 1).ok
    ensures var g2 := ReserveRegs(FreeExp(g, a), 1);
            && Shape(ops, g2, a, fr) && Frame(g, a, g2, a) && g2.freereg == fr + 1 && 0 <= fr < MAXSTACK
            && g2.code == g.code && g2.jpc == g.jpc
    ensures a.k.VNONRELOC? && IsTemp(g, a.info) ==> a.info == g.freereg - 1
  {
    hide RunFrom, WFCode, Sem;
    var g2 := ReserveRegs(FreeExp(g, a), 1);
    AnyRun(g, a, fr, -1, AnyEnv(ops, []));
    RegsOnly(ops, g, a, g2.freereg, g2.maxstack, fr, -1, AnyEnv(ops, []), map[], Any);
  }

  lemma ReservedShape(ops: Ops, g: Gen, a: AExp, fr: int)
    requires Inv(ops, g, a, fr) && !a.k.VNONRELOC? && !IsVar(a.k) && ReserveRegs(g, 1).ok
    ensures var g2 := ReserveRegs(g, 1);
            && Shape(ops, g2, a, fr) && Frame(g, a, g2, a) && g2.freereg == fr + 1 && g2.code == g.code
                && g2.jpc == g.jpc
  {
    hide RunFrom, WFCode;
    NextRegShape(ops, g, a, fr);
  }

  lemma InvShape(ops: Ops, g: Gen, a: AExp, fr: int)
    requires Inv(ops, g, a, fr)
    ensures Shape(ops, g, a, fr)
  {
  }

  lemma FreedState(ops: Ops, g: Gen, a: AExp, fr: int)
    requires Inv(ops, g, a, fr) && a.k.VNONRELOC?
    ensures var g2 := FreeExp(g, a);
            && WFGen(g2) && g2 == g.(freereg := fr) && ListsOk(g2, a) && Frame(g, a, g2, a)
    ensures IsTemp(g, a.info) ==> a.info == g.freereg - 1
  {
    hide RunFrom, WFCode;
  }

  lemma ExitJumpKeeps(ops: Ops, g: Gen, a: AExp, pass: bool, fr: int)
    requires Inv(ops, g, a, fr) && !IsVar(a.k) && ExitJump(g, a, pass).0.ok
    ensures var (g', l) := ExitJump(g, a, pass);
            var a' := WithJump(a, !pass, l).(k := VNONRELOC);
            WFGen(g') && g'.freereg == fr && ListsOk(g', a') && Frame(g, a, g', a')
  {
    hide RunFrom, Sem, WFGen, ListsOk, Frame, JumpOnCond, Clean, BranchSem;
    if a.k.VJMP? {
      AnyRun(g, a, fr, -1, AnyEnv(ops, []));
      CompareJumped(ops, g, a, pass, fr, -1, AnyEnv(ops, []), map[], Any);
    } else if (if pass then a.k.VK? || a.k.VKNUM? || a.k.VTRUE? else a.k.VNIL? || a.k.VFALSE?) {
      FrameRefl(g, a);
      FrameLists(g, a, g, a, a.(k := VNONRELOC));
      assert a.t + [] == a.t && a.f + [] == a.f;
    } else {
      JumpOnCondKeeps(ops, g, a, !pass, fr);
    }
  }

  lemma NegateKeeps(ops: Ops, g: Gen, a: AExp, fr: int)
    requires Inv(ops, g, a, fr) && RawConst(g, a) && !IsVar(a.k) && NegateValue(g, a).0.ok
    ensures var (g', a') := NegateValue(g, a);
            && Inv(ops, g', a', fr) && Frame(g, a, g', a') && a'.t == a.t && a'.f == a.f
  {
    hide RunFrom, Sem, HalfSem, Inv, Frame, NegateValue, Clean;
    var env := AnyEnv(ops, NegateValue(g, a).0.consts);
    AnyRun(g, a, fr, -1, env);
    NegateValueOk(ops, g, a, fr, -1, env, map[], Any);
  }

  // ----- the first operand of a strict operator -----

  /** a is what luaK_infix made of the first operand, g the state after the second one has
      been compiled; fr and fr2 are the registers that were free when each began. */
  ghost predicate Waiting(ops: Ops, g: Gen, a: AExp, fr: int, fr2: int) {
    && !HasJumps(a) && g.nactvar <= fr
    && (|| (a.k.VKNUM? && !ops.isNaN(a.nval) && fr2 == fr)
        || (a.k.VK? && ConstAt(g, RkAsK(a.info)) && fr2 == fr)
        || (a.k.VNONRELOC? && RegAt(g, a.info, fr) && fr2 == fr + TempCount(g, a.info)))
  }

  lemma NumeralInv(ops: Ops, g: Gen, a: AExp)
    requires WFGen(g) && g.ok && IsNumeral(a) && !ops.isNaN(a.nval)
    ensures Inv(ops, g, a, g.freereg)
  {
    hide WFCode;
  }

  /** The registers of both operands, each the topmost one when its turn to be freed comes. */
  ghost predicate Stacked(g: Gen, a1: AExp, o1: int, a2: AExp, o2: int, fr: int) {
    && (a1.k.VNONRELOC? ==> o1 == a1.info) && (a2.k.VNONRELOC? ==> o2 == a2.info)
    && (a1.k.VNONRELOC? && IsTemp(g, o1) ==>
         o1 == g.freereg - 1 - (if a2.k.VNONRELOC? && o2 > o1 then TempCount(g, o2) else 0))
    && (a2.k.VNONRELOC? && IsTemp(g, o2) ==>
         o2 == g.freereg - 1 - (if a1.k.VNONRELOC? && o1 > o2 then TempCount(g, o1) else 0))
  }

  lemma KeptStacked(ops: Ops, g: Gen, a1: AExp, a2: AExp, o2: int, fr: int, fr2: int)
    requires Waiting(ops, g, a1, fr, fr2) && !a1.k.VKNUM? && Inv(ops, g, a2, fr2) && Settled(g, a2, o2)
    ensures Stacked(g, a1, KeptRK(a1), a2, o2, fr)
    ensures a1.k.VNONRELOC? && IsTemp(g, a1.info) ==> !(o2 < a1.info && a2.k.VNONRELOC? && IsTemp(g, o2))
  {
    hide WFGen, ListsOk;
  }

  lemma NumeralStacked(ops: Ops, g4: Gen, a2: AExp, o2: int, fr: int, g5: Gen, a5: AExp, o1: int)
    requires Inv(ops, g4, a2, fr) && Settled(g4, a2, o2) && Inv(ops, g5, a5, g4.freereg) && Settled(g5, a5, o1)
    requires g5.nactvar == g4.nactvar
    ensures Stacked(g5, a5, o1, a2, o2, fr)
  {
    hide WFGen, ListsOk;
  }

  lemma WaitingStill(ops: Ops, g: Gen, g': Gen, a: AExp, fr: int, fr2: int)
    requires Waiting(ops, g, a, fr, fr2) && Grows(g, g')
    ensures Waiting(ops, g', a, fr, fr2)
  {
  }

  /** Settling the first operand after the second. */
  lemma PairFacts(ops: Ops, g: Gen, a1: AExp, a2: AExp, o2: int, fr: int, fr2: int)
    requires Inv(ops, g, a2, fr2) && Settled(g, a2, o2) && Waiting(ops, g, a1, fr, fr2) && Exp2RK(g, a1).0.ok
    ensures var (g', a1', o1) := Exp2RK(g, a1);
            && WFGen(g') && Stacked(g', a1', o1, a2, o2, fr)
            && !HasJumps(a1') && !a1'.k.VJMP? && !IsVar(a1'.k) && Frame(g, a2, g', a1')
            && (a1'.k.VNONRELOC? && a2.k.VNONRELOC? && o1 == o2 ==> !IsTemp(g', o1))
  {
    hide WFCode, Sem, RunFrom, Frame, AllOpen, TargetsLabelled;
    if a1.k.VKNUM? {
      hide Exp2RK;
      NumeralInv(ops, g, a1);
      Exp2RKKeeps(ops, g, a1, g.freereg);
      var (g', a1', o1) := Exp2RK(g, a1);
      NumeralStacked(ops, g, a2, o2, fr, g', a1', o1);
      FrameNoLists(g, a2, a1, g', a1');
    } else {
      KeptAgain(g, a1);
      KeptStacked(ops, g, a1, a2, o2, fr, fr2);
      FrameSettled(g, a2, a1);
    }
  }

  lemma WaitingKept(ops: Ops, g: Gen, a: AExp, fr: int, fr2: int)
    requires Waiting(ops, g, a, fr, fr2) && !a.k.VKNUM?
    ensures !HasJumps(a) && !a.k.VJMP? && (a.k.VNONRELOC? || (a.k.VK? && a.info <= MAXINDEXRK))
  {
  }

  /** codecomp frees its second operand first. */
  lemma CompareFree(ops: Ops, g: Gen, a1: AExp, a2: AExp, o2: int, fr: int, fr2: int)
    requires Inv(ops, g, a2, fr2) && Settled(g, a2, o2) && Waiting(ops, g, a1, fr, fr2) && !a1.k.VKNUM?
    ensures a2.k.VNONRELOC? && IsTemp(g, a2.info) ==> a2.info == g.freereg - 1
    ensures a1.k.VNONRELOC? && IsTemp(g, a1.info) ==> a1.info == FreeExp(g, a2).freereg - 1
    ensures var g2 := FreeExp(FreeExp(g, a2), a1);
            g2 == g.(freereg := fr) && WFGen(g2) && Frame(g, a2, g2, a1)
  {
    hide WFCode, Frame, AllOpen, TargetsLabelled;
    FrameSettled(g, a2, a1);
    FrameRegs(g, a2, g, a1, fr);
  }

  lemma FreedOperand(ops: Ops, g: Gen, a: AExp, o: int, fr: int)
    requires Inv(ops, g, a, fr) && Settled(g, a, o)
    ensures a.k.VNONRELOC? && IsTemp(g, a.info) ==> a.info == g.freereg - 1
    ensures var g2 := FreeExp(g, a);
            NoDup(g2.jpc) && AllOpen(g2.code, Elems(g2.jpc)) && Frame(g, a, g2, a)
  {
    hide WFCode, Frame, AllOpen, TargetsLabelled;
    FrameRefl(g, a);
    FrameRegs(g, a, g, a, FreeExp(g, a).freereg);
  }

  /** The second operand is itself a concatenation: its registers follow the first operand's. */
  lemma ConcatFollows(ops: Ops, g: Gen, a1: AExp, a2: AExp, fr: int, fr2: int)
    requires Waiting(ops, g, a1, fr, fr2) && a1.k.VNONRELOC? && IsTemp(g, a1.info)
    requires Inv(ops, g, a2, fr2) && a2.k.VRELOCABLE? && g.code[a2.info].Concat?
    ensures a1.info == fr == g.freereg - 1 && g.code[a2.info].b == a1.info + 1
  {
    hide WFGen, ListsOk;
  }
}
