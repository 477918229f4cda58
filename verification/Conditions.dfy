/** Conditional jumps on expressions: jumponcond, luaK_goiftrue, luaK_goiffalse. */
module Conditions {
  import opened Common
  import opened LuaValues
  import opened Opcodes
  import opened PartialCode
  import opened CodeGen
  import opened GenInvariant
  import opened ExpMeaning
  import opened RegisterLoads
  import opened Operands

  /** Control goes on only if the value counts as `pass`; otherwise it leaves by a list. */
  ghost predicate BranchSem(g: Gen, t: seq<nat>, f: seq<nat>, pass: bool, fr: int, ex: int, env: Env, r: Regs, x: Ctx) {
    var out := At(g, env, r);
    match x
    case Any => true
    case Dead(o) => out == o && (o.Exit? ==> OpenAt(g.code, o.at) && o.at !in g.jpc && o.at !in t && o.at !in f)
                    && (o.Fail? || o.Done? || o.Exit?)
    case Live(r0, v) =>
      match out
      case Reach(r1) => Same(r0, r1, fr, ex) && v.Some? && IsFalse(v.value) == !pass
      case Exit(j, r1) =>
        && Same(r0, r1, fr, ex)
        && (j in t || j in f)
        && Delivers(g.code, j, r1, v, j in t)
      case Fail => v.None?
      case _ => false
  }

  lemma Discharge2AnyRegOk(ops: Ops, g: Gen, e: AExp, fr: int, ex: int, env: Env, r: Regs, x: Ctx)
    requires Inv(ops, g, e, fr) && Sem(g, e, fr, ex, env, r, x) && !IsVar(e.k) && !e.k.VJMP?
    requires Discharge2AnyReg(g, e).0.ok && Discharge2AnyReg(g, e).0.consts <= env.k && Clean(g, r)
    ensures var (g', e') := Discharge2AnyReg(g, e);
            && Inv(ops, g', e', fr) && Sem(g', e', fr, ex, env, r, x) && Frame(g, e, g', e')
            && e'.k.VNONRELOC? && e'.t == e.t && e'.f == e.f
  {
    hide RunFrom, Sem, Frame, Discharge2Reg, WFCode, AllOpen, TargetsLabelled, Apart, CondList;
    if e.k.VNONRELOC? {
      FrameRefl(g, e);
    } else {
      var g1 := ReserveRegs(g, 1);
      assert g1 == g.(freereg := g1.freereg, maxstack := g1.maxstack);
      RegsOnly(ops, g, e, g1.freereg, g1.maxstack, fr, ex, env, r, x);
      Discharge2RegOk(ops, g1, e, fr, fr, ex, env, r, x);
      var (g', e') := Discharge2Reg(g1, e, fr);
      FrameTrans(g, e, g1, e, g', e');
    }
  }

  /** The expression with a new jump on the list it exits to. */
  function WithJump(e: AExp, cond: bool, l: seq<nat>): AExp {
    if cond then e.(t := e.t + l) else e.(f := e.f + l)
  }

  ghost predicate Branched(ops: Ops, g: Gen, e: AExp, g': Gen, l: seq<nat>, cond: bool, fr: int) {
    var e' := WithJump(e, cond, l).(k := VNONRELOC);
    && WFGen(g') && g'.ok && g'.freereg == fr && g'.nactvar == g.nactvar && ListsOk(g', e')
    && Frame(g, e, g', e')
  }

  lemma NewJumpLists(g: Gen, e: AExp, g': Gen, j: nat, cond: bool)
    requires ListsOk(g, e) && KeepsOpen(g, {}, g') && !e.k.VJMP?
    requires OpenAt(g'.code, j) && j >= |g.code| && Control(g'.code, j).Some? && g'.jpc == []
    ensures var e' := WithJump(e, cond, [j]).(k := VNONRELOC);
            ListsOk(g', e') && Frame(g, e, g', e')
    ensures forall i :: i in e.t || i in e.f ==> i < |g.code| && Control(g'.code, i) == Control(g.code, i)
  {
    KeepsLists(g, e, g');
    forall i | i in e.t || i in e.f ensures i < |g.code| && Control(g'.code, i) == Control(g.code, i) {
      assert i in Elems(e.t) || i in Elems(e.f);
      assert OpenAt(g.code, i);
    }
    NoDupAppend(e.t, j);
    NoDupAppend(e.f, j);
    assert Elems(e.t + [j]) == Elems(e.t) + {j};
    assert Elems(e.f + [j]) == Elems(e.f) + {j};
  }

  lemma NoDupAppend(l: seq<nat>, j: nat)
    requires NoDup(l)
    ensures j !in l ==> NoDup(l + [j])
  {
    if j !in l {
      forall a, b | 0 <= a < b < |l + [j]| ensures (l + [j])[a] != (l + [j])[b] {
        if b == |l| { assert l[a] in l; }
      }
    }
  }

  /** A test of the register that holds the value. */
  lemma TestSetBranch(ops: Ops, g: Gen, e: AExp, cond: bool, fr: int, ex: int, env: Env, r: Regs, x: Ctx)
    requires WFGen(g) && g.ok && ListsOk(g, e) && e.k.VNONRELOC? && g.freereg == fr && Sem(g, e, fr, ex, env, r, x)
    requires CondJump(g, TestSet(NO_REG, e.info, cond)).0.ok
    ensures var (g', l) := CondJump(g, TestSet(NO_REG, e.info, cond));
            var e' := WithJump(e, cond, l);
            Branched(ops, g, e, g', l, cond, fr) && BranchSem(g', e'.t, e'.f, !cond, fr, ex, env, r, x)
  {
    hide RunFrom, DischargeJpc;
    var i: AInstr := TestSet(NO_REG, e.info, cond);
    CondJumpWF(g, i);
    CondJumpRun(g, i, env, r);
    var (g', l) := CondJump(g, i);
    NewJumpLists(g, e, g', |g.code| + 1, cond);
  }

  lemma FrontLists(ops: Ops, g: Gen, e: AExp)
    requires WFGen(g) && g.ok && ListsOk(g, e) && e.k.VRELOCABLE? && KindOk(ops, g, e)
    ensures var h := g.(code := g.code[..e.info]);
            && WFGen(h) && ListsOk(h, e) && Frame(g, e, h, e)
            && forall j :: j in e.t || j in e.f ==> Control(h.code, j) == Control(g.code, j)
  {
    FrontWF(g);
    var h := g.(code := Front(g.code));
    KeepsLists(g, e, h);
  }

  lemma TestNotSem(ops: Ops, g: Gen, e: AExp, cond: bool, fr: int, ex: int, env: Env, r: Regs, x: Ctx)
    requires WFGen(g) && g.ok && ListsOk(g, e) && KindOk(ops, g, e) && g.freereg == fr && Sem(g, e, fr, ex, env, r, x)
    requires e.k.VRELOCABLE? && g.code[e.info].Not?
    requires JumpOnCond(g, e, cond).0.ok
    ensures var (g', l) := JumpOnCond(g, e, cond);
            var e' := WithJump(e, cond, l);
            BranchSem(g', e'.t, e'.f, !cond, fr, ex, env, r, x)
  {
    hide RunFrom, DischargeJpc, Frame, WFCode, AllOpen, TargetsLabelled, Apart;
    FrontLists(ops, g, e);
    var h := g.(code := g.code[..e.info]);
    var i: AInstr := Test(g.code[e.info].b, !cond);
    CondJumpWF(h, i);
    CondJumpRun(h, i, env, r);
    var (g', l) := CondJump(h, i);
    NewJumpLists(h, e, g', |h.code| + 1, cond);
  }

  /** A NOT just emitted is removed and its operand tested the other way round. */
  lemma TestNotBranch(ops: Ops, g: Gen, e: AExp, cond: bool, fr: int, ex: int, env: Env, r: Regs, x: Ctx)
    requires WFGen(g) && g.ok && ListsOk(g, e) && KindOk(ops, g, e) && g.freereg == fr && Sem(g, e, fr, ex, env, r, x)
    requires e.k.VRELOCABLE? && g.code[e.info].Not?
    requires JumpOnCond(g, e, cond).0.ok
    ensures var (g', l) := JumpOnCond(g, e, cond);
            var e' := WithJump(e, cond, l);
            Branched(ops, g, e, g', l, cond, fr) && BranchSem(g', e'.t, e'.f, !cond, fr, ex, env, r, x)
  {
    hide RunFrom, DischargeJpc, Sem, BranchSem;
    TestNotSem(ops, g, e, cond, fr, ex, env, r, x);
    FrontLists(ops, g, e);
    var h := g.(code := g.code[..e.info]);
    var i: AInstr := Test(g.code[e.info].b, !cond);
    CondJumpWF(h, i);
    var (g', l) := CondJump(h, i);
    NewJumpLists(h, e, g', |h.code| + 1, cond);
    FrameTrans(g, e, h, e, g', WithJump(e, cond, l).(k := VNONRELOC));
  }

  lemma JumpOnCondOk(ops: Ops, g: Gen, e: AExp, cond: bool, fr: int, ex: int, env: Env, r: Regs, x: Ctx)
    requires Inv(ops, g, e, fr) && Sem(g, e, fr, ex, env, r, x) && !IsVar(e.k) && !e.k.VJMP?
    requires JumpOnCond(g, e, cond).0.ok && JumpOnCond(g, e, cond).0.consts <= env.k && Clean(g, r)
    ensures var (g', l) := JumpOnCond(g, e, cond);
            var e' := WithJump(e, cond, l);
            Branched(ops, g, e, g', l, cond, fr) && BranchSem(g', e'.t, e'.f, !cond, fr, ex, env, r, x)
  {
    if e.k.VRELOCABLE? && g.code[e.info].Not? {
      TestNotBranch(ops, g, e, cond, fr, ex, env, r, x);
    } else {
      hide RunFrom, Sem, Frame, BranchSem, Discharge2AnyReg, WFCode, AllOpen, TargetsLabelled, Apart, CondList;
      Discharge2AnyRegOk(ops, g, e, fr, ex, env, r, x);
      var (g1, e1) := Discharge2AnyReg(g, e);
      var g2 := FreeExp(g1, e1);
      assert g2 == g1.(freereg := fr, maxstack := g1.maxstack);
      RegsOnly(ops, g1, e1, fr, g1.maxstack, fr, ex, env, r, x);
      TestSetBranch(ops, g2, e1, cond, fr, ex, env, r, x);
      var (g', l) := CondJump(g2, TestSet(NO_REG, e1.info, cond));
      FrameTrans(g, e, g1, e1, g2, e1);
      FrameTrans(g, e, g2, e1, g', WithJump(e1, cond, l).(k := VNONRELOC));
      FrameLists(g, e, g', WithJump(e1, cond, l).(k := VNONRELOC), WithJump(e, cond, l).(k := VNONRELOC));
    }
  }

  /** Frames and lists do not depend on where the value is. */
  lemma FrameLists(g: Gen, e: AExp, g': Gen, e1: AExp, e2: AExp)
    requires e1.t == e2.t && e1.f == e2.f && !e1.k.VJMP? && !e2.k.VJMP?
    ensures Frame(g, e, g', e1) == Frame(g, e, g', e2)
    ensures ListsOk(g', e1) == ListsOk(g', e2)
  {
    assert forall j :: Outer(g', e1, j) == Outer(g', e2, j);
  }

  // ----- goiftrue, goiffalse -----

  /** Patching the list that means `pass` to the current position. */
  lemma PassHere(ops: Ops, g: Gen, e: AExp, pass: bool, fr: int, ex: int, env: Env, r: Regs, x: Ctx)
    requires WFGen(g) && g.ok && ListsOk(g, e) && BranchSem(g, e.t, e.f, pass, fr, ex, env, r, x) && !e.k.VJMP?
    requires PatchToHere(g, if pass then e.t else e.f).ok
    ensures var g' := PatchToHere(g, if pass then e.t else e.f);
            var e' := if pass then e.(t := []) else e.(f := []);
            && WFGen(g') && ListsOk(g', e') && Frame(g, e, g', e')
            && BranchSem(g', e'.t, e'.f, pass, fr, ex, env, r, x)
            && g'.code == g.code && g'.lasttarget == |g.code|
  {
    hide RunFrom, WFCode, Delivers;
    var l := if pass then e.t else e.f;
    var g' := PatchToHere(g, l);
    assert Elems(g'.jpc) == Elems(g.jpc) + Elems(l);
    forall i, j | 0 <= i < j < |g'.jpc| ensures g'.jpc[i] != g'.jpc[j] {
      if i < |g.jpc| <= j { assert l[j - |g.jpc|] in l; assert g.jpc[i] in g.jpc; }
    }
    assert TargetsLabelled(g'.code, g'.lasttarget);
    DeliversTruth(g.code);
  }

  lemma DeliversTruth(c: Code)
    ensures forall j, r1, v, b :: Delivers(c, j, r1, v, b) ==> v.Some? && IsFalse(v.value) == !b
  {
  }

  /** The code in front of the comparison of a VJMP expression. */
  lemma CompareFront(ops: Ops, g: Gen, e: AExp)
    requires WFGen(g) && e.k.VJMP? && KindOk(ops, g, e)
    ensures var n := |g.code|;
            var p := g.code[..n - 2];
            && WFCode(p) && g.code == p + [g.code[n - 2], Jmp(Open)]
            && forall i: AInstr :: IsTest(i) ==> WFGen(g.(code := p + [i, Jmp(Open)]))
  {
    var n := |g.code|;
    var p := g.code[..n - 2];
    assert g.code == p + [g.code[n - 2], Jmp(Open)];
    forall pc: nat | pc < |p| ensures WFAt(p, pc) {
      assert WFAt(g.code, pc);
    }
    forall i: AInstr | IsTest(i) ensures WFGen(g.(code := p + [i, Jmp(Open)])) {
      var c := p + [i, Jmp(Open)];
      forall pc: nat | pc < |c| ensures WFAt(c, pc) {
        if pc < |p| { assert WFAt(p, pc); }
      }
    }
  }

  lemma InvertRun(ops: Ops, g: Gen, e: AExp, env: Env, r: Regs)
    requires WFGen(g) && e.k.VJMP? && KindOk(ops, g, e)
    ensures var g' := InvertJump(g, e.info);
            var n := |g.code|;
            var i := g.code[n - 2];
            var i' := Cmp(i.cop, !i.cond, i.b, i.c);
            && g' == g.(code := g.code[..n - 2] + [i', Jmp(Open)]) && WFGen(g')
            && At(g, env, r) == ThenTest(RunFrom(g.code[..n - 2], env, 0, r), env, i, n - 1)
            && At(g', env, r) == ThenTest(RunFrom(g.code[..n - 2], env, 0, r), env, i', n - 1)
  {
    CompareFront(ops, g, e);
    var n := |g.code|;
    var p := g.code[..n - 2];
    var i := g.code[n - 2];
    var i': AInstr := Cmp(i.cop, !i.cond, i.b, i.c);
    hide RunFrom, WFCode;
    TestRun(p, i, env, r);
    TestRun(p, i', env, r);
    assert g.code[n - 2 := i'] == p + [i', Jmp(Open)];
  }

  /** Inverting a comparison swaps arriving and leaving through its jump. */
  lemma InvertSwaps(ops: Ops, g: Gen, e: AExp, env: Env, r: Regs)
    requires WFGen(g) && e.k.VJMP? && KindOk(ops, g, e) && ListsOk(g, e)
    ensures var g' := InvertJump(g, e.info);
            && WFGen(g') && ListsOk(g', e) && KindOk(ops, g', e) && Frame(g, e, g', e)
            && (forall j :: j in e.t || j in e.f ==> Control(g'.code, j) == Control(g.code, j))
            && At(g', env, r) ==
               match At(g, env, r)
               case Reach(r1) => Exit(e.info, r1)
               case Exit(j, r1) => if j == e.info then Reach(r1) else Exit(j, r1)
               case o => o
  {
    InvertRun(ops, g, e, env, r);
    hide RunFrom, WFCode;
    var g' := InvertJump(g, e.info);
    forall j | j in e.t || j in e.f
        ensures j < |g.code| - 2 && Control(g'.code, j) == Control(g.code, j) && OpenAt(g'.code, j) {
      assert j in Elems(e.t) || j in Elems(e.f);
      assert OpenAt(g.code, j);
    }
    RunExit(g.code[..|g.code| - 2], env, 0, r);
  }

  /** The only constants an expression under compilation is known by are strings. */
  predicate RawConst(g: Gen, e: AExp) {
    e.k.VK? ==> 0 <= e.info < |g.consts| && g.consts[e.info].Str?
  }

  /** The state after the conditional jump, before the other list is patched. */
  ghost predicate Jumped(ops: Ops, g: Gen, e: AExp, g': Gen, e': AExp, pass: bool, fr: int, ex: int, env: Env, r: Regs,
      x: Ctx) {
    && WFGen(g') && g'.ok && g'.freereg == fr && g'.nactvar == g.nactvar
    && !e'.k.VJMP? && ListsOk(g', e') && Frame(g, e, g', e')
    && BranchSem(g', e'.t, e'.f, pass, fr, ex, env, r, x)
  }

  lemma ConstJumped(ops: Ops, g: Gen, e: AExp, pass: bool, fr: int, ex: int, env: Env, r: Regs, x: Ctx)
    requires Inv(ops, g, e, fr) && Sem(g, e, fr, ex, env, r, x) && RawConst(g, e) && g.consts <= env.k
    requires if pass then e.k.VK? || e.k.VKNUM? || e.k.VTRUE? else e.k.VNIL? || e.k.VFALSE?
    ensures Jumped(ops, g, e, g, e.(k := VNONRELOC), pass, fr, ex, env, r, x)
  {
    hide RunFrom, WFCode;
    FrameRefl(g, e);
    FrameLists(g, e, g, e, e.(k := VNONRELOC));
  }

  lemma OwnJumpLists(ops: Ops, g: Gen, e: AExp, b: bool)
    requires WFGen(g) && ListsOk(g, e) && KindOk(ops, g, e) && e.k.VJMP?
    ensures var e' := WithJump(e, b, JumpAt(e.info)).(k := VNONRELOC);
            && ListsOk(g, e') && (forall j :: MyJump(e, j) == MyJump(e', j))
            && forall g0, e0 :: Frame(g0, e0, g, e) ==> Frame(g0, e0, g, e')
  {
    NoDupAppend(e.t, e.info);
    NoDupAppend(e.f, e.info);
    assert Elems(e.t + [e.info as nat]) == Elems(e.t) + {e.info as nat};
    assert Elems(e.f + [e.info as nat]) == Elems(e.f) + {e.info as nat};
    var e' := WithJump(e, b, JumpAt(e.info)).(k := VNONRELOC);
    assert forall j :: MyJump(e, j) == MyJump(e', j);
    assert forall j :: Outer(g, e, j) == Outer(g, e', j);
  }

  lemma CompareJumped(ops: Ops, g: Gen, e: AExp, pass: bool, fr: int, ex: int, env: Env, r: Regs, x: Ctx)
    requires Inv(ops, g, e, fr) && Sem(g, e, fr, ex, env, r, x) && e.k.VJMP?
    ensures var g' := if pass then InvertJump(g, e.info) else g;
            var e' := WithJump(e, !pass, JumpAt(e.info)).(k := VNONRELOC);
            Jumped(ops, g, e, g', e', pass, fr, ex, env, r, x)
  {
    InvertSwaps(ops, g, e, env, r);
    FrameRefl(g, e);
    hide RunFrom, WFCode, At;
    var g' := if pass then InvertJump(g, e.info) else g;
    OwnJumpLists(ops, g', e, !pass);
    assert e.info as nat in JumpAt(e.info);
  }

  /** The jump goiftrue and goiffalse make when the value does not count as `pass`. */
  function ExitJump(g: Gen, e: AExp, pass: bool): (r: (Gen, seq<nat>))
    ensures Grows(g, r.0)
  {
    if e.k.VJMP? then (if pass then InvertJump(g, e.info) else g, JumpAt(e.info))
    else if (if pass then e.k.VK? || e.k.VKNUM? || e.k.VTRUE? else e.k.VNIL? || e.k.VFALSE?) then (g, [])
    else JumpOnCond(g, e, !pass)
  }

  /** goiftrue and goiffalse up to the point where their new jump is on its list. */
  function JumpUnless(g: Gen, e: AExp, pass: bool): (r: (Gen, AExp))
    ensures Grows(g, r.0)
  {
    var (g1, l) := ExitJump(g, e, pass);
    var exits := if pass then e.f else e.t;
    (g1.(ok := g1.ok && ConcatOk(exits, l)), WithJump(e, !pass, l).(k := VNONRELOC))
  }

  lemma JumpUnlessOk(ops: Ops, g: Gen, e: AExp, pass: bool, fr: int, ex: int, env: Env, r: Regs, x: Ctx)
    requires Inv(ops, g, e, fr) && Sem(g, e, fr, ex, env, r, x) && RawConst(g, e) && !IsVar(e.k)
    requires JumpUnless(g, e, pass).0.ok && JumpUnless(g, e, pass).0.consts <= env.k && Clean(g, r)
    ensures var (g', e') := JumpUnless(g, e, pass);
            Jumped(ops, g, e, g', e', pass, fr, ex, env, r, x)
  {
    hide RunFrom, Sem, Frame, BranchSem, JumpOnCond, WFGen, ListsOk;
    if e.k.VJMP? {
      CompareJumped(ops, g, e, pass, fr, ex, env, r, x);
    } else if (if pass then e.k.VK? || e.k.VKNUM? || e.k.VTRUE? else e.k.VNIL? || e.k.VFALSE?) {
      ConstJumped(ops, g, e, pass, fr, ex, env, r, x);
      assert e.f + [] == e.f && e.t + [] == e.t;
    } else {
      JumpOnCondOk(ops, g, e, !pass, fr, ex, env, r, x);
    }
  }

  lemma GoIfAsJump(g: Gen, e: AExp, pass: bool)
    ensures var (g1, e1) := DischargeVars(g, e);
            var (g2, e2) := JumpUnless(g1, e1, pass);
            var (g', e') := if pass then GoIfTrue(g, e) else GoIfFalse(g, e);
            && g' == PatchToHere(g2, if pass then e2.t else e2.f)
            && e'.(k := VNONRELOC) == (if pass then e2.(t := []) else e2.(f := []))
  {
    hide JumpOnCond, DischargeVars;
  }

  /** goiftrue and goiffalse: control goes on exactly when the value counts as `pass`. */
  lemma GoIfOk(ops: Ops, g: Gen, e: AExp, pass: bool, fr: int, ex: int, env: Env, r: Regs, x: Ctx)
    requires Inv(ops, g, e, fr) && Sem(g, e, fr, ex, env, r, x) && RawConst(g, e)
    requires var res := if pass then GoIfTrue(g, e) else GoIfFalse(g, e);
             res.0.ok && res.0.consts <= env.k
    requires Clean(g, r)
    ensures var (g', e') := if pass then GoIfTrue(g, e) else GoIfFalse(g, e);
            var e1 := e'.(k := VNONRELOC);
            Jumped(ops, g, e, g', e1, pass, fr, ex, env, r, x) && (if pass then e'.t == [] else e'.f == [])
  {
    hide RunFrom, Sem, Frame, BranchSem, DischargeVars, JumpUnless, WFGen, ListsOk, GoIfTrue, GoIfFalse;
    GoIfAsJump(g, e, pass);
    var (g1, e1) := DischargeVars(g, e);
    var (g2, e2) := JumpUnless(g1, e1, pass);
    var (g', e') := if pass then GoIfTrue(g, e) else GoIfFalse(g, e);
    DischargeVarsOk(ops, g, e, fr, ex, env, r, x);
    JumpUnlessOk(ops, g1, e1, pass, fr, ex, env, r, x);
    PassHere(ops, g2, e2, pass, fr, ex, env, r, x);
    FrameTrans(g, e, g1, e1, g2, e2);
    FrameTrans(g, e, g2, e2, g', e'.(k := VNONRELOC));
  }
}
