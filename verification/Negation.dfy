/** codenot: constants are folded, comparisons inverted, lists exchanged and their values
    dropped, anything else negated by an instruction. */
module Negation {
  import opened Common
  import opened LuaValues
  import opened Opcodes
  import opened PartialCode
  import opened CodeGen
  import opened GenInvariant
  import opened ExpMeaning
  import opened RegisterLoads
  import opened Operands
  import opened Conditions

  function NotOption(v: Option<Value>): Option<Value> {
    match v
    case None => None
    case Some(y) => Some(NotValue(y))
  }

  function NotCtx(x: Ctx): Ctx {
    match x
    case Any => Any
    case Dead(o) => Dead(o)
    case Live(r0, v) => Live(r0, NotOption(v))
  }

  // ----- dropping the values of a list -----

  lemma RemoveWF(g: Gen, l: seq<nat>)
    requires WFGen(g) && AllOpen(g.code, Elems(l))
    ensures var g' := RemoveValues(g, l);
            && WFGen(g')
            && (forall j :: OpenAt(g.code, j) <==> OpenAt(g'.code, j))
            && (forall j: nat :: j < |g.code| && IsReloc(g.code[j]) ==> g'.code[j] == g.code[j])
            && (forall j: nat :: j < |g.code| && g.code[j].Cmp? ==> g'.code[j] == g.code[j])
            && (forall j: nat :: j !in l ==> Control(g'.code, j) == Control(g.code, j))
            && (forall j: nat :: j in l && Control(g.code, j).Some? ==>
                  Control(g'.code, j).Some? && !Control(g'.code, j).value.TestSet?
                  && (!Control(g.code, j).value.TestSet? ==> Control(g'.code, j) == Control(g.code, j)))
  {
    RetestWF(g.code, Elems(l));
  }

  lemma RemoveRun(g: Gen, l: seq<nat>, env: Env, r: Regs)
    requires WFGen(g) && AllOpen(g.code, Elems(l))
    ensures At(RemoveValues(g, l), env, r) == At(g, env, r)
  {
    EntryEnd(g.code);
    RunRetest(g.code, Elems(l), env, 0, r);
  }

  /** ... also for the code in front of a relocatable instruction. */
  lemma RemoveFront(g: Gen, l: seq<nat>, env: Env, r: Regs)
    requires LastIsLoose(g) && AllOpen(g.code, Elems(l))
    ensures RunFrom(Front(RemoveValues(g, l).code), env, 0, r) == RunFrom(Front(g.code), env, 0, r)
  {
    FrontWF(g);
    var p := Front(g.code);
    EntryEnd(p);
    assert AllOpen(p, Elems(l)) by {
      forall j | j in Elems(l) ensures OpenAt(p, j) { assert OpenAt(g.code, j); }
    }
    RunRetest(p, Elems(l), env, 0, r);
    assert Front(RemoveValues(g, l).code) == Retest(p, Elems(l));
  }

  lemma RemoveOutcome(ops: Ops, g: Gen, e: AExp, l: seq<nat>, env: Env, r: Regs)
    requires WFGen(g) && KindOk(ops, g, e) && AllOpen(g.code, Elems(l))
    ensures CodeOutcome(RemoveValues(g, l), e, env, r) == CodeOutcome(g, e, env, r)
  {
    if e.k.VRELOCABLE? {
      RemoveFront(g, l, env, r);
      assert Front(g.code) == g.code[..e.info];
      assert Front(RemoveValues(g, l).code) == RemoveValues(g, l).code[..e.info];
    } else {
      RemoveRun(g, l, env, r);
    }
  }

  /** Half way through: falling through gives the negated value already, the lists still
      deliver the value itself. */
  ghost predicate HalfSem(g: Gen, e: AExp, fr: int, ex: int, env: Env, r: Regs, x: Ctx) {
    var out := CodeOutcome(g, e, env, r);
    match x
    case Any => true
    case Dead(o) => out == o && OuterOutcome(g, e, o)
    case Live(r0, v) =>
      match out
      case Reach(r1) => Same(r0, r1, fr, ex) && v.Some? && ValueHere(g, e, env, r1) == Some(NotValue(v.value))
      case Exit(j, r1) =>
        && Same(r0, r1, fr, ex)
        && (if j in e.t then Delivers(g.code, j, r1, v, true)
            else if j in e.f then Delivers(g.code, j, r1, v, false)
            else e.k.VJMP? && j == e.info && v == Some(Bool(false)))
      case Fail => v.None?
      case _ => false
  }

  function Swapped(e: AExp): AExp {
    e.(t := e.f, f := e.t)
  }

  function Removed(g: Gen, e: AExp): Gen {
    RemoveValues(RemoveValues(g, e.t), e.f)
  }

  lemma SwapControl(ops: Ops, g: Gen, e: AExp, fr: int)
    requires Inv(ops, g, e, fr)
    ensures var g' := Removed(g, e);
            && WFGen(g') && g' == g.(code := g'.code)
            && (forall j :: OpenAt(g.code, j) <==> OpenAt(g'.code, j))
            && (forall j: nat :: j < |g.code| && IsReloc(g.code[j]) ==> j < |g'.code| && g'.code[j] == g.code[j])
            && (forall j: nat :: j < |g.code| && g.code[j].Cmp? ==> j < |g'.code| && g'.code[j] == g.code[j])
            && |g'.code| == |g.code|
            && (forall j: nat :: j !in e.t && j !in e.f ==> Control(g'.code, j) == Control(g.code, j))
            && (forall j :: j in e.t || j in e.f ==>
                  Control(g.code, j).Some? && Control(g'.code, j).Some? && !Control(g'.code, j).value.TestSet?
                  && (!Control(g.code, j).value.TestSet? ==> Control(g'.code, j) == Control(g.code, j)))
  {
    RemoveWF(g, e.t);
    var g1 := RemoveValues(g, e.t);
    assert AllOpen(g1.code, Elems(e.f));
    RemoveWF(g1, e.f);
    hide WFCode, RunFrom;
  }

  lemma SwapInv(ops: Ops, g: Gen, e: AExp, fr: int)
    requires Inv(ops, g, e, fr)
    ensures var g' := Removed(g, e);
            && Inv(ops, g', Swapped(e), fr) && Frame(g, e, g', Swapped(e))
            && (forall j :: j in e.t || j in e.f ==>
                  Control(g.code, j).Some? && Control(g'.code, j).Some? && !Control(g'.code, j).value.TestSet?
                  && (!Control(g.code, j).value.TestSet? ==> Control(g'.code, j) == Control(g.code, j)))
  {
    SwapControl(ops, g, e, fr);
    hide WFCode, RunFrom, Removed, Control;
    assert forall j :: MyJump(e, j) == MyJump(Swapped(e), j);
  }

  lemma SwapOutcome(ops: Ops, g: Gen, e: AExp, fr: int, env: Env, r: Regs)
    requires Inv(ops, g, e, fr)
    ensures CodeOutcome(Removed(g, e), Swapped(e), env, r) == CodeOutcome(g, e, env, r)
  {
    hide RunFrom, At, RemoveValues;
    RemoveWF(g, e.t);
    var g1 := RemoveValues(g, e.t);
    assert AllOpen(g1.code, Elems(e.f));
    assert KindOk(ops, g1, e) by { RemovedKind(ops, g, e); }
    RemoveOutcome(ops, g, e, e.t, env, r);
    RemoveOutcome(ops, g1, e, e.f, env, r);
  }

  lemma RemovedKind(ops: Ops, g: Gen, e: AExp)
    requires WFGen(g) && ListsOk(g, e) && KindOk(ops, g, e)
    ensures KindOk(ops, RemoveValues(g, e.t), e)
  {
    RemoveWF(g, e.t);
  }

  lemma SwapValue(ops: Ops, g: Gen, e: AExp, fr: int, env: Env)
    requires Inv(ops, g, e, fr)
    ensures forall r1 :: ValueHere(Removed(g, e), Swapped(e), env, r1) == ValueHere(g, e, env, r1)
  {
    hide RunFrom, WFCode;
  }

  lemma SwapSem(ops: Ops, g: Gen, e: AExp, fr: int, ex: int, env: Env, r: Regs, x: Ctx)
    requires Inv(ops, g, e, fr) && HalfSem(g, e, fr, ex, env, r, x)
    ensures Sem(Removed(g, e), Swapped(e), fr, ex, env, r, NotCtx(x))
  {
    hide CodeOutcome, ValueHere, Inv, Removed, RemoveValues, Frame, Control;
    SwapInv(ops, g, e, fr);
    SwapOutcome(ops, g, e, fr, env, r);
    SwapValue(ops, g, e, fr, env);
    SwapOuter(ops, g, e, fr);
  }

  lemma SwapOuter(ops: Ops, g: Gen, e: AExp, fr: int)
    requires Inv(ops, g, e, fr)
    ensures Apart(e.t, e.f)
    ensures forall j :: Outer(g, e, j) ==> Outer(Removed(g, e), Swapped(e), j)
  {
    hide WFCode, RunFrom, RemoveValues;
    SwapInv(ops, g, e, fr);
  }

  // ----- the expression itself -----

  predicate IsConstKind(k: Kind) {
    k.VNIL? || k.VFALSE? || k.VTRUE? || k.VK? || k.VKNUM?
  }

  /** codenot before the lists are exchanged. */
  function NegateValue(g: Gen, e: AExp): (r: (Gen, AExp))
    ensures Grows(g, r.0)
  {
    if e.k.VNIL? || e.k.VFALSE? then (g, e.(k := VTRUE))
    else if IsConstKind(e.k) then (g, e.(k := VFALSE))
    else if e.k.VJMP? then (InvertJump(g, e.info), e)
    else
      var (g2, e2) := Discharge2AnyReg(g, e);
      var g3 := FreeExp(g2, e2);
      (Emit(g3, Not(0, e2.info)), e2.(info := |g3.code|, k := VRELOCABLE))
  }

  ghost predicate Negated(ops: Ops, g: Gen, e: AExp, g': Gen, e': AExp, fr: int, ex: int, env: Env, r: Regs, x: Ctx) {
    && Inv(ops, g', e', fr) && Frame(g, e, g', e') && e'.t == e.t && e'.f == e.f && !e'.k.VK?
    && HalfSem(g', e', fr, ex, env, r, x)
  }

  lemma NegateConst(ops: Ops, g: Gen, e: AExp, fr: int, ex: int, env: Env, r: Regs, x: Ctx)
    requires Inv(ops, g, e, fr) && Sem(g, e, fr, ex, env, r, x) && RawConst(g, e) && g.consts <= env.k
    requires IsConstKind(e.k)
    ensures var (g', e') := NegateValue(g, e);
            Negated(ops, g, e, g', e', fr, ex, env, r, x)
  {
    hide RunFrom, WFCode, WFGen;
  }

  lemma NegateCompare(ops: Ops, g: Gen, e: AExp, fr: int, ex: int, env: Env, r: Regs, x: Ctx)
    requires Inv(ops, g, e, fr) && Sem(g, e, fr, ex, env, r, x) && e.k.VJMP?
    ensures var (g', e') := NegateValue(g, e);
            Negated(ops, g, e, g', e', fr, ex, env, r, x)
  {
    InvertSwaps(ops, g, e, env, r);
    hide RunFrom, WFCode, WFGen, At, InvertJump;
  }

  lemma NegateRegInv(ops: Ops, g: Gen, e: AExp, fr: int)
    requires WFGen(g) && g.ok && ListsOk(g, e) && e.k.VNONRELOC? && g.freereg == fr
    requires g.nactvar <= fr < MAXSTACK && Emit(g, Not(0, e.info)).ok
    ensures var g' := Emit(g, Not(0, e.info));
            var e' := e.(info := |g.code|, k := VRELOCABLE);
            && Inv(ops, g', e', fr) && Frame(g, e, g', e')
            && (forall j :: j in e.t || j in e.f ==> Control(g'.code, j) == Control(g.code, j))
  {
    EmitReloc(ops, g, e, Not(0, e.info), fr);
    EmitWF(g, Not(0, e.info));
    KeepsLists(g, e, Emit(g, Not(0, e.info)));
  }

  lemma NegateRegRun(g: Gen, e: AExp, env: Env, r: Regs)
    requires WFGen(g) && e.k.VNONRELOC?
    ensures var g' := Emit(g, Not(0, e.info));
            var e' := e.(info := |g.code|, k := VRELOCABLE);
            && CodeOutcome(g', e', env, r) == CodeOutcome(g, e, env, r)
            && (forall r1 :: ValueHere(g, e, env, r1).Some?
                             && ValueHere(g', e', env, r1) == Some(NotValue(ValueHere(g, e, env, r1).value)))
  {
    hide RunFrom, At;
    EmitWF(g, Not(0, e.info));
    EmitRun(g, Not(0, e.info), env, r);
  }

  lemma NegateReg(ops: Ops, g: Gen, e: AExp, fr: int, ex: int, env: Env, r: Regs, x: Ctx)
    requires WFGen(g) && g.ok && ListsOk(g, e) && e.k.VNONRELOC? && g.freereg == fr && Sem(g, e, fr, ex, env, r, x)
    requires g.nactvar <= fr < MAXSTACK && Emit(g, Not(0, e.info)).ok
    ensures var g' := Emit(g, Not(0, e.info));
            var e' := e.(info := |g.code|, k := VRELOCABLE);
            Negated(ops, g, e, g', e', fr, ex, env, r, x)
  {
    hide At, Emit, WFGen, Inv, ListsOk, CodeOutcome, ValueHere, Sem, HalfSem, Frame;
    NegateRegInv(ops, g, e, fr);
    NegateRegRun(g, e, env, r);
    HalfFrom(g, e, Emit(g, Not(0, e.info)), e.(info := |g.code|, k := VRELOCABLE), fr, ex, env, r, x);
  }

  lemma HalfFrom(g: Gen, e: AExp, g': Gen, e': AExp, fr: int, ex: int, env: Env, r: Regs, x: Ctx)
    requires Sem(g, e, fr, ex, env, r, x) && Frame(g, e, g', e')
    requires e'.t == e.t && e'.f == e.f && !e.k.VJMP? && !e'.k.VJMP?
    requires CodeOutcome(g', e', env, r) == CodeOutcome(g, e, env, r)
    requires forall r1 ::
        ValueHere(g, e, env, r1).Some? && ValueHere(g', e', env, r1) == Some(NotValue(ValueHere(g, e, env, r1).value))
    requires forall j :: j in e.t || j in e.f ==> Control(g'.code, j) == Control(g.code, j)
    ensures HalfSem(g', e', fr, ex, env, r, x)
  {
    hide CodeOutcome, ValueHere, Control, OpenAt;
  }

  lemma NegateValueOk(ops: Ops, g: Gen, e: AExp, fr: int, ex: int, env: Env, r: Regs, x: Ctx)
    requires Inv(ops, g, e, fr) && Sem(g, e, fr, ex, env, r, x) && RawConst(g, e) && !IsVar(e.k)
    requires NegateValue(g, e).0.ok && NegateValue(g, e).0.consts <= env.k && Clean(g, r)
    ensures var (g', e') := NegateValue(g, e);
            Negated(ops, g, e, g', e', fr, ex, env, r, x)
  {
    if IsConstKind(e.k) {
      NegateConst(ops, g, e, fr, ex, env, r, x);
    } else if e.k.VJMP? {
      NegateCompare(ops, g, e, fr, ex, env, r, x);
    } else {
      hide RunFrom, Sem, HalfSem, Frame, Discharge2AnyReg, WFCode, AllOpen, TargetsLabelled, Apart, CondList, Emit;
      Discharge2AnyRegOk(ops, g, e, fr, ex, env, r, x);
      var (g1, e1) := Discharge2AnyReg(g, e);
      var g2 := FreeExp(g1, e1);
      assert g2 == g1.(freereg := fr, maxstack := g1.maxstack);
      RegsOnly(ops, g1, e1, fr, g1.maxstack, fr, ex, env, r, x);
      NegateReg(ops, g2, e1, fr, ex, env, r, x);
      var (g', e') := NegateValue(g, e);
      FrameTrans(g, e, g1, e1, g2, e1);
      FrameTrans(g, e, g2, e1, g', e');
    }
  }

  lemma CodeNotIsNegate(g: Gen, e: AExp)
    ensures var (g1, e1) := DischargeVars(g, e);
            var (g2, e2) := NegateValue(g1, e1);
            CodeNot(g, e) == (Removed(g2, e1), Swapped(e2.(t := e1.t, f := e1.f)))
  {
    hide DischargeVars, Emit, InvertJump, RemoveValues;
    var (g1, e1) := DischargeVars(g, e);
    if !IsConstKind(e1.k) && !e1.k.VJMP? {
      assert e1.k != VNIL;
    }
  }

  lemma CodeNotOk(ops: Ops, g: Gen, e: AExp, fr: int, ex: int, env: Env, r: Regs, x: Ctx)
    requires Inv(ops, g, e, fr) && Sem(g, e, fr, ex, env, r, x) && RawConst(g, e)
    requires CodeNot(g, e).0.ok && CodeNot(g, e).0.consts <= env.k && Clean(g, r)
    ensures var (g', e') := CodeNot(g, e);
            && Inv(ops, g', e', fr) && Sem(g', e', fr, ex, env, r, NotCtx(x)) && Frame(g, e, g', e') && !e'.k.VK?
  {
    hide RunFrom, Sem, HalfSem, Frame, DischargeVars, NegateValue, CodeNot, WFGen, ListsOk;
    CodeNotIsNegate(g, e);
    var (g1, e1) := DischargeVars(g, e);
    assert Grows(g1, CodeNot(g, e).0);
    DischargeVarsOk(ops, g, e, fr, ex, env, r, x);
    var (g2, e2) := NegateValue(g1, e1);
    NegateValueOk(ops, g1, e1, fr, ex, env, r, x);
    SwapInv(ops, g2, e2, fr);
    SwapSem(ops, g2, e2, fr, ex, env, r, x);
    FrameTrans(g, e, g1, e1, g2, e2);
    FrameTrans(g, e, g2, e2, Removed(g2, e2), Swapped(e2));
  }
}
