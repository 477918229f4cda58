/** Bringing an expression into a register: luaK_nil, discharge2reg, discharge2anyreg. */
module RegisterLoads {
  import opened Common
  import opened LuaValues
  import opened Opcodes
  import opened PartialCode
  import opened CodeGen
  import opened GenInvariant
  import opened ExpMeaning

  lemma FillNilGet(r: Regs, a: int, b: int, i: int)
    ensures Get(FillNil(r, a, b), i) == if a <= i <= b then Nil else Get(r, i)
    decreases b - a
  {
    if a <= b { FillNilGet(r, a, b - 1, i); }
  }

  lemma LoadNilExec(env: Env, a: int, b: int, r: Regs)
    requires a <= b
    ensures ExecPlain<Dest>(env, LoadNil(a, b), r).Some?
    ensures forall i :: Get(ExecPlain<Dest>(env, LoadNil(a, b), r).value, i) == if a <= i <= b then Nil else Get(r, i)
  {
    var r2 := ExecPlain<Dest>(env, LoadNil(a, b), r).value;
    assert r2 == FillNil(r, a, b)[b := Nil];
    forall i ensures Get(r2, i) == if a <= i <= b then Nil else Get(r, i) {
      FillNilGet(r, a, b, i);
    }
  }

  lemma FillJunkGet(ops: Ops, r: Regs, b: int, c: int, d: int, i: int)
    requires i < b
    ensures Get(FillJunk(ops, r, b, c, d), i) == Get(r, i)
    decreases d - b
  {
    if b <= d { FillJunkGet(ops, r, b, c, d - 1, i); }
  }

  /** When no jump lands after the last instruction, that instruction can be replaced. */
  ghost predicate LastIsLoose(g: Gen) {
    && WFGen(g) && g.jpc == []
    && |g.code| >= 1 && g.lasttarget <= |g.code| - 1
    && (IsReloc(g.code[|g.code| - 1]) || g.code[|g.code| - 1].LoadNil?)
  }

  function Front(c: Code): Code
    requires |c| >= 1
  {
    c[..|c| - 1]
  }

  lemma FrontWF(g: Gen)
    requires LastIsLoose(g)
    ensures WFCode(Front(g.code)) && TargetsLabelled(Front(g.code), g.lasttarget)
    ensures WFGen(g.(code := Front(g.code)))
    ensures KeepsOpen(g, {}, g.(code := Front(g.code)))
  {
    var p := Front(g.code);
    forall pc: nat | pc < |p| ensures WFAt(p, pc) {
      assert WFAt(g.code, pc);
    }
  }

  lemma ReplaceLastWF(g: Gen, i: AInstr)
    requires LastIsLoose(g) && GoodPlain(i)
    ensures var g' := g.(code := Front(g.code) + [i]);
            WFGen(g') && KeepsOpen(g, {}, g')
  {
    FrontWF(g);
    AppendWF(Front(g.code), i);
  }

  lemma ReplaceLastRun(g: Gen, i: AInstr, env: Env, r: Regs)
    requires LastIsLoose(g) && GoodPlain(i)
    ensures var g' := g.(code := Front(g.code) + [i]);
            At(g', env, r) == RunFrom(g'.code, env, 0, r) == ThenPlain(RunFrom(Front(g.code), env, 0, r), env, i)
  {
    FrontWF(g);
    var p := Front(g.code);
    EntryEnd(p);
    RunAppend(p, [i], env, 0, r);
  }

  // ----- luaK_nil -----

  ghost predicate OnlyNils(r1: Regs, r2: Regs, from: int, n: int) {
    forall i :: Get(r2, i) == if from <= i < from + n then Nil else Get(r1, i)
  }

  ghost predicate NilOutcome(o: Outcome, o': Outcome, from: int, n: int) {
    match o
    case Reach(r1) => o'.Reach? && OnlyNils(r1, o'.regs, from, n)
    case _ => o' == o
  }

  predicate Merges(g: Gen, from: int) {
    var pc := |g.code|;
    && pc > g.lasttarget && pc > 0 && g.code[pc - 1].LoadNil?
    && g.code[pc - 1].a <= from <= g.code[pc - 1].b + 1
  }

  lemma NilWF(g: Gen, from: int, n: int)
    requires WFGen(g) && n >= 1
    ensures var g' := LuaKNil(g, from, n);
            && WFGen(g') && KeepsOpen(g, {}, g')
            && g' == g.(code := g'.code, jpc := g'.jpc, ok := g'.ok) && (g'.jpc == [] || g' == g)
  {
    if Merges(g, from) {
      var last := g.code[|g.code| - 1];
      assert LastIsLoose(g) && WFAt(g.code, |g.code| - 1);
      ReplaceLastWF(g, LoadNil(last.a, from + n - 1));
      assert g.code[|g.code| - 1 := LoadNil(last.a, from + n - 1)] == Front(g.code) + [LoadNil(last.a, from + n - 1)];
    } else {
      EmitWF(g, LoadNil(from, from + n - 1));
    }
  }

  lemma NilAfter(o: Outcome, env: Env, from: int, n: int)
    requires n >= 1
    ensures NilOutcome(o, ThenPlain(o, env, LoadNil(from, from + n - 1)), from, n)
  {
    if o.Reach? { LoadNilExec(env, from, from + n - 1, o.regs); }
  }

  lemma NilMerged(o: Outcome, env: Env, a: int, b: int, from: int, n: int)
    requires n >= 1 && a <= from <= b + 1 && a <= b
    ensures NilOutcome(ThenPlain(o, env, LoadNil(a, b)),
                       ThenPlain(o, env, LoadNil(a, if from + n - 1 > b then from + n - 1 else b)), from, n)
  {
    if o.Reach? {
      LoadNilExec(env, a, b, o.regs);
      LoadNilExec(env, a, if from + n - 1 > b then from + n - 1 else b, o.regs);
    }
  }

  /** Extending the nils of the last instruction. */
  lemma MergeRun(g: Gen, from: int, n: int, env: Env, r: Regs)
    requires WFGen(g) && n >= 1 && Merges(g, from)
    ensures NilOutcome(At(g, env, r), At(LuaKNil(g, from, n), env, r), from, n)
  {
    hide RunFrom, ExecPlain, At, NilOutcome, ThenPlain;
    var last := g.code[|g.code| - 1];
    assert WFAt(g.code, |g.code| - 1);
    var p := RunFrom(Front(g.code), env, 0, r);
    assert g.code == Front(g.code) + [last];
    assert g.(code := Front(g.code) + [last]) == g;
    ReplaceLastRun(g, last, env, r);
    NilMerged(p, env, last.a, last.b, from, n);
    if from + n - 1 > last.b {
      var i := LoadNil(last.a, from + n - 1);
      ReplaceLastRun(g, i, env, r);
      assert g.code[|g.code| - 1 := i] == Front(g.code) + [i];
    }
  }

  /** luaK_nil sets exactly the n registers, whether it emits an instruction, extends the
      previous one, or relies on the registers of a fresh activation being nil. */
  lemma NilRun(g: Gen, from: int, n: int, env: Env, r: Regs)
    requires WFGen(g) && n >= 1 && Clean(g, r)
    ensures NilOutcome(At(g, env, r), At(LuaKNil(g, from, n), env, r), from, n)
  {
    if Merges(g, from) {
      MergeRun(g, from, n, env, r);
    } else if |g.code| > g.lasttarget && |g.code| == 0 && from >= g.nactvar {
    } else {
      hide WFGen, RunFrom, ExecPlain, At, ThenPlain, NilOutcome, Emit;
      EmitRun(g, LoadNil(from, from + n - 1), env, r);
      NilAfter(At(g, env, r), env, from, n);
    }
  }

  // ----- discharge2reg -----

  /** The value of e ends up in `reg`, and no register below fr changes but that one. */
  ghost predicate PutOutcome(v: Option<Value>, r1: Regs, o': Outcome, reg: int, fr: int) {
    match v
    case None => o' == Fail
    case Some(y) => o'.Reach? && Get(o'.regs, reg) == y && Same(r1, o'.regs, fr, reg)
  }

  ghost predicate Puts(g: Gen, e: AExp, g': Gen, reg: int, fr: int, env: Env, r: Regs) {
    var o := CodeOutcome(g, e, env, r);
    match o
    case Reach(r1) => PutOutcome(ValueHere(g, e, env, r1), r1, At(g', env, r), reg, fr)
    case _ => At(g', env, r) == o
  }

  predicate Loadable(k: Kind) {
    !k.VJMP? && !k.VVOID? && !IsVar(k)
  }

  lemma KeepsLists(g: Gen, e: AExp, g': Gen)
    requires ListsOk(g, e) && KeepsOpen(g, {}, g')
    ensures forall j :: j in e.t || j in e.f ==>
        OpenAt(g'.code, j) && j !in g'.jpc && Control(g'.code, j) == Control(g.code, j)
  {
    forall j | j in e.t || j in e.f
      ensures OpenAt(g'.code, j) && j !in g'.jpc && Control(g'.code, j) == Control(g.code, j)
    {
      assert j in Elems(e.t) || j in Elems(e.f);
      assert OpenAt(g.code, j);
    }
  }

  lemma PutSem(g: Gen, e: AExp, g': Gen, reg: int, fr: int, ex: int, env: Env, r: Regs, x: Ctx)
    requires Loadable(e.k) && ListsOk(g, e) && KeepsOpen(g, {}, g')
    requires Sem(g, e, fr, ex, env, r, x) && Puts(g, e, g', reg, fr, env, r)
    requires reg >= fr || reg == ex
    ensures Sem(g', e.(info := reg, k := VNONRELOC), fr, ex, env, r, x)
  {
    hide At, RunFrom;
    KeepsLists(g, e, g');
  }

  lemma PutFrame(ops: Ops, g: Gen, e: AExp, g': Gen, reg: int)
    requires Loadable(e.k) && ListsOk(g, e) && KeepsOpen(g, {}, g')
    requires forall j :: j in g'.jpc ==> j in g.jpc
    ensures var e' := e.(info := reg, k := VNONRELOC);
            ListsOk(g', e') && Frame(g, e, g', e')
  {
    KeepsLists(g, e, g');
  }

  /** Loading a value with one plain instruction. */
  lemma EmitPuts(g: Gen, e: AExp, i: AInstr, reg: int, fr: int, env: Env, r: Regs)
    requires WFGen(g) && GoodPlain(i) && Loadable(e.k) && !e.k.VRELOCABLE?
    requires forall r1 ::
        ExecPlain(env, i, r1).Some? && Some(Get(ExecPlain(env, i, r1).value, reg)) == ValueHere(g, e, env, r1)
                          && Same(r1, ExecPlain(env, i, r1).value, fr, reg)
    ensures Puts(g, e, Emit(g, i), reg, fr, env, r)
  {
    hide WFGen, RunFrom, At, Emit, ExecPlain, ValueHere;
    EmitRun(g, i, env, r);
  }

  lemma NilPuts(g: Gen, e: AExp, reg: int, fr: int, env: Env, r: Regs)
    requires WFGen(g) && e.k.VNIL? && Clean(g, r)
    ensures Puts(g, e, LuaKNil(g, reg, 1), reg, fr, env, r)
  {
    hide WFGen, RunFrom, At, LuaKNil;
    NilRun(g, reg, 1, env, r);
  }

  lemma SetAExec(env: Env, i: AInstr, reg: int, fr: int, r: Regs)
    requires IsReloc(i) && (i.Concat? ==> fr <= i.b)
    ensures GoodPlain(SetA(i, reg))
    ensures match RelocValue(env, i, r)
            case None => ExecPlain(env, SetA(i, reg), r) == None
            case Some(v) =>
              var x := ExecPlain(env, SetA(i, reg), r);
              x.Some? && Get(x.value, reg) == v && Same(r, x.value, fr, reg)
  {
    if i.Concat? {
      forall j | j < fr ensures Get(FillJunk(env.ops, r, i.b, i.c, i.c), j) == Get(r, j) {
        FillJunkGet(env.ops, r, i.b, i.c, i.c, j);
      }
    }
  }

  lemma RelocPuts(ops: Ops, g: Gen, e: AExp, reg: int, fr: int, env: Env, r: Regs)
    requires WFGen(g) && e.k.VRELOCABLE? && KindOk(ops, g, e) && (g.code[e.info].Concat? ==> fr <= g.code[e.info].b)
    ensures var g' := Relocate(g, e.info, reg);
            Puts(g, e, g', reg, fr, env, r) && WFGen(g') && KeepsOpen(g, {}, g')
  {
    hide RunFrom, At, ExecPlain, RelocValue;
    var i := g.code[e.info];
    var p := RunFrom(Front(g.code), env, 0, r);
    SetAExec(env, i, reg, fr, if p.Reach? then p.regs else map[]);
    ReplaceLastRun(g, SetA(i, reg), env, r);
    ReplaceLastWF(g, SetA(i, reg));
    assert g.code[e.info := SetA(i, reg)] == Front(g.code) + [SetA(i, reg)];
  }

  /** Everything of Inv but the register bookkeeping. */
  ghost predicate Shape(ops: Ops, g: Gen, e: AExp, fr: int) {
    && WFGen(g) && g.ok && ListsOk(g, e) && KindOk(ops, g, e)
    && (e.k.VRELOCABLE? ==> g.code[e.info].Concat? ==> fr <= g.code[e.info].b)
  }

  ghost predicate OnlyCode(g: Gen, g': Gen) {
    && g'.freereg == g.freereg && g'.nactvar == g.nactvar && g'.maxstack == g.maxstack
    && g'.lasttarget == g.lasttarget && (g'.jpc == [] || g'.jpc == g.jpc)
  }

  lemma PutOk(ops: Ops, g: Gen, e: AExp, g': Gen, reg: int, fr: int, ex: int, env: Env, r: Regs, x: Ctx)
    requires Shape(ops, g, e, fr) && Loadable(e.k) && Sem(g, e, fr, ex, env, r, x)
    requires WFGen(g') && g'.ok && KeepsOpen(g, {}, g') && OnlyCode(g, g')
    requires Puts(g, e, g', reg, fr, env, r) && (reg >= fr || reg == ex)
    ensures var e' := e.(info := reg, k := VNONRELOC);
            Shape(ops, g', e', fr) && Frame(g, e, g', e') && Sem(g', e', fr, ex, env, r, x)
  {
    hide WFGen, Puts, Sem;
    PutFrame(ops, g, e, g', reg);
    PutSem(g, e, g', reg, fr, ex, env, r, x);
  }

  lemma EmitOk(ops: Ops, g: Gen, e: AExp, i: AInstr, reg: int, fr: int, ex: int, env: Env, r: Regs, x: Ctx)
    requires Shape(ops, g, e, fr) && Loadable(e.k) && !e.k.VRELOCABLE? && Sem(g, e, fr, ex, env, r, x)
    requires GoodPlain(i) && Emit(g, i).ok && (reg >= fr || reg == ex)
    requires forall r1 ::
        ExecPlain(env, i, r1).Some? && Some(Get(ExecPlain(env, i, r1).value, reg)) == ValueHere(g, e, env, r1)
                          && Same(r1, ExecPlain(env, i, r1).value, fr, reg)
    ensures var g' := Emit(g, i);
            var e' := e.(info := reg, k := VNONRELOC);
            OnlyCode(g, g') && Shape(ops, g', e', fr) && Frame(g, e, g', e') && Sem(g', e', fr, ex, env, r, x)
  {
    EmitWF(g, i);
    EmitPuts(g, e, i, reg, fr, env, r);
    hide Shape, WFGen, Sem, ExecPlain, ValueHere;
    PutOk(ops, g, e, Emit(g, i), reg, fr, ex, env, r, x);
  }

  lemma AddKOk(g: Gen, v: Value, env: Env)
    requires AddK(g, v).0.consts <= env.k
    ensures var (g', i) := AddK(g, v);
            && g' == g.(consts := g'.consts, ok := g'.ok)
            && 0 <= i < |g'.consts| && g'.consts[i] == v && Const(env, i) == v
  {
  }

  lemma ConstsOnly(ops: Ops, g: Gen, e: AExp, g': Gen, fr: int, ex: int, env: Env, r: Regs, x: Ctx)
    requires g' == g.(consts := g'.consts, ok := g'.ok) && g.consts <= g'.consts && g'.ok
    requires Shape(ops, g, e, fr) && Sem(g, e, fr, ex, env, r, x)
    ensures Shape(ops, g', e, fr) && Sem(g', e, fr, ex, env, r, x) && Frame(g, e, g', e)
  {
  }

  lemma Discharge2RegOk(ops: Ops, g: Gen, e: AExp, reg: int, fr: int, ex: int, env: Env, r: Regs, x: Ctx)
    requires Shape(ops, g, e, fr) && !IsVar(e.k) && Sem(g, e, fr, ex, env, r, x)
    requires Discharge2Reg(g, e, reg).0.ok && Discharge2Reg(g, e, reg).0.consts <= env.k
    requires Clean(g, r) && (reg >= fr || reg == ex)
    ensures var (g', e') := Discharge2Reg(g, e, reg);
            && OnlyCode(g, g') && Shape(ops, g', e', fr) && Frame(g, e, g', e') && Sem(g', e', fr, ex, env, r, x)
            && (if e.k.VJMP? then g' == g && e' == e else e' == e.(info := reg, k := VNONRELOC))
  {
    hide WFGen, Sem, Frame, Emit, At, RunFrom;
    match e.k
    case VNIL =>
      NilPuts(g, e, reg, fr, env, r);
      NilWF(g, reg, 1);
      PutOk(ops, g, e, LuaKNil(g, reg, 1), reg, fr, ex, env, r, x);
    case VTRUE => EmitOk(ops, g, e, LoadBool(reg, true, false), reg, fr, ex, env, r, x);
    case VFALSE => EmitOk(ops, g, e, LoadBool(reg, false, false), reg, fr, ex, env, r, x);
    case VK => EmitOk(ops, g, e, LoadK(reg, e.info), reg, fr, ex, env, r, x);
    case VKNUM =>
      var (g1, i) := AddK(g, Number(e.nval));
      AddKOk(g, Number(e.nval), env);
      ConstsOnly(ops, g, e, g1, fr, ex, env, r, x);
      EmitOk(ops, g1, e, LoadK(reg, i), reg, fr, ex, env, r, x);
      FrameTrans(g, e, g1, e, Emit(g1, LoadK(reg, i)), e.(info := reg, k := VNONRELOC));
    case VRELOCABLE =>
      RelocPuts(ops, g, e, reg, fr, env, r);
      PutOk(ops, g, e, Relocate(g, e.info, reg), reg, fr, ex, env, r, x);
    case VNONRELOC =>
      if reg != e.info {
        EmitOk(ops, g, e, Move(reg, e.info), reg, fr, ex, env, r, x);
      } else {
        FrameRefl(g, e);
      }
    case _ => FrameRefl(g, e);
  }

  lemma FrameRefl(g: Gen, e: AExp)
    ensures Frame(g, e, g, e)
  {
  }

  lemma FrameTrans(g: Gen, e: AExp, g1: Gen, e1: AExp, g2: Gen, e2: AExp)
    requires Frame(g, e, g1, e1) && Frame(g1, e1, g2, e2)
    ensures Frame(g, e, g2, e2)
  {
  }
}
