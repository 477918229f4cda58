/** Closing the true and false lists of an expression into one register (exp2reg). */
module JumpClosing {
  import opened Common
  import opened LuaValues
  import opened Opcodes
  import opened PartialCode
  import opened CodeGen
  import opened GenInvariant
  import opened ExpMeaning
  import opened RegisterLoads

  function TwoPatches(c: Code, f: set<nat>, t: set<nat>, final: nat, reg: int, pF: nat, pT: nat): (c': Code)
    ensures |c'| == |c|
  {
    Patch(Patch(c, f, final, reg, pF), t, final, reg, pT)
  }

  lemma PatchLeavesList(c: Code, l: set<nat>, vt: nat, reg: int, dt: nat, l2: set<nat>, vt2: nat, dt2: nat)
    requires WFCode(c) && AllOpen(c, l) && AllOpen(c, l2) && l !! l2
    requires GoodDests(c, l, vt, dt) && GoodDests(c, l2, vt2, dt2)
    requires forall j :: j in l2 ==> Control(c, j).Some?
    ensures var c' := Patch(c, l, vt, reg, dt);
            && AllOpen(c', l2) && GoodDests(c', l2, vt2, dt2)
            && forall j :: j in l2 ==> Control(c', j) == Control(c, j) && ByTestSet(c', j) == ByTestSet(c, j)
  {
    var c' := Patch(c, l, vt, reg, dt);
    PatchWF(c, l, vt, reg, dt);
    forall j | j in l2
      ensures OpenAt(c', j) && Control(c', j) == Control(c, j) && ByTestSet(c', j) == ByTestSet(c, j)
    {
      PatchKeeps(c, l, vt, reg, dt, j);
      assert IsTest(c[j - 1]);
    }
  }

  /** The effect of resolving both lists on a run. */
  lemma TwoPatchesRun(c: Code, f: set<nat>, t: set<nat>, final: nat, reg: int, pF: nat, pT: nat, env: Env, pc: nat,
      r: Regs)
    requires WFCode(c) && Entry(c, pc) && AllOpen(c, f) && AllOpen(c, t) && f !! t
    requires GoodDests(c, f, final, pF) && GoodDests(c, t, final, pT)
    requires forall j :: j in t ==> Control(c, j).Some?
    ensures var c2 := TwoPatches(c, f, t, final, reg, pF, pT);
            && WFCode(c2)
            && RunFrom(c2, env, pc, r) ==
               match RunFrom(c, env, pc, r)
               case Exit(j, r1) =>
                 if j in f && j < |c| then RunFrom(c2, env, PatchDest(c, j, final, pF), PatchRegs(c, j, reg, r1))
                 else if j in t && j < |c| then RunFrom(c2, env, PatchDest(c, j, final, pT), PatchRegs(c, j, reg, r1))
                 else Exit(j, r1)
               case o => o
  {
    hide Patch, RunFrom, WFCode, GoodDests, AllOpen;
    var c1 := Patch(c, f, final, reg, pF);
    PatchWF(c, f, final, reg, pF);
    PatchLeavesList(c, f, final, reg, pF, t, final, pT);
    PatchWF(c1, t, final, reg, pT);
    RunPatch(c, f, final, reg, pF, env, pc, r);
    RunPatch(c1, t, final, reg, pT, env, pc, r);
    match RunFrom(c, env, pc, r)
    case Exit(j, r1) =>
      if j in f && j < |c| {
        assert Entry(c, PatchDest(c, j, final, pF)) by { GoodDest(c, f, final, pF, j); }
        RunPatch(c1, t, final, reg, pT, env, PatchDest(c, j, final, pF), PatchRegs(c, j, reg, r1));
      }
    case _ =>
  }

  lemma GoodDest(c: Code, l: set<nat>, vt: nat, dt: nat, j: nat)
    requires GoodDests(c, l, vt, dt) && j in l && j < |c|
    ensures Entry(c, PatchDest(c, j, vt, dt)) && j < PatchDest(c, j, vt, dt)
  {
  }

  // ----- what closing delivers -----

  /** The two loads that produce the values a comparison does not. */
  ghost predicate HasLoads(c: Code, reg: int, pF: nat) {
    pF + 2 == |c| && c[pF] == LoadBool(reg, false, true) && c[pF + 1] == LoadBool(reg, true, false)
  }

  ghost predicate AllTestSets(c: Code, l: set<nat>) {
    forall j :: j in l && j < |c| ==> ByTestSet(c, j)
  }

  /** Every member of the lists has somewhere to go that leaves its value in reg. */
  ghost predicate Closable(c: Code, f: set<nat>, t: set<nat>, reg: int, pF: nat, pT: nat) {
    && WFCode(c) && AllOpen(c, f) && AllOpen(c, t) && f !! t && reg != NO_REG
    && (forall j :: j in t || j in f ==> Control(c, j).Some?)
    && (|| (AllTestSets(c, f) && AllTestSets(c, t) && pF == pT == |c|)
        || (HasLoads(c, reg, pF) && pT == pF + 1 && Entry(c, pF) && forall j :: j in t || j in f ==> j < pF))
  }

  ghost predicate OnlyReg(r1: Regs, r2: Regs, reg: int) {
    forall i :: i != reg ==> Get(r1, i) == Get(r2, i)
  }

  ghost predicate ClosedOutcome(c: Code, f: set<nat>, t: set<nat>, reg: int, o: Outcome, o': Outcome) {
    match o
    case Exit(j, r1) =>
      if (j in f || j in t) && j < |c| then
        && o'.Reach? && OnlyReg(r1, o'.regs, reg)
        && forall v :: Delivers(c, j, r1, v, j in t) ==> v == Some(Get(o'.regs, reg))
      else o' == o
    case _ => o' == o
  }

  lemma ClosableDests(c: Code, f: set<nat>, t: set<nat>, reg: int, pF: nat, pT: nat)
    requires Closable(c, f, t, reg, pF, pT)
    ensures GoodDests(c, f, |c|, pF) && GoodDests(c, t, |c|, pT)
  {
    EntryEnd(c);
  }

  lemma LoadsUntouched(c: Code, f: set<nat>, t: set<nat>, final: nat, reg: int, pF: nat, pT: nat)
    requires AllOpen(c, f) && AllOpen(c, t) && HasLoads(c, reg, pF)
    ensures HasLoads(TwoPatches(c, f, t, final, reg, pF, pT), reg, pF)
  {
  }

  /** After closing, leaving through a member of either list means arriving at the end with
      the value it delivers in reg. */
  lemma CloseRun(c: Code, f: set<nat>, t: set<nat>, reg: int, pF: nat, pT: nat, env: Env, r: Regs)
    requires Closable(c, f, t, reg, pF, pT)
    ensures var c2 := TwoPatches(c, f, t, |c|, reg, pF, pT);
            WFCode(c2) && ClosedOutcome(c, f, t, reg, RunFrom(c, env, 0, r), RunFrom(c2, env, 0, r))
  {
    ClosableDests(c, f, t, reg, pF, pT);
    EntryEnd(c);
    TwoPatchesRun(c, f, t, |c|, reg, pF, pT, env, 0, r);
    var c2 := TwoPatches(c, f, t, |c|, reg, pF, pT);
    if HasLoads(c, reg, pF) { LoadsUntouched(c, f, t, |c|, reg, pF, pT); }
    hide TwoPatches, WFCode, GoodDests;
    match RunFrom(c, env, 0, r)
    case Exit(j, r1) =>
      if (j in f || j in t) && j < |c| {
        var b := j in t;
        var d := if b then PatchDest(c, j, |c|, pT) else PatchDest(c, j, |c|, pF);
        var r1' := PatchRegs(c, j, reg, r1);
        assert Control(c, j).Some?;
        if d == |c| {
          assert RunFrom(c2, env, d, r1') == Reach(r1');
        } else {
          assert RunFrom(c2, env, d, r1') == Reach(r1'[reg := Bool(b)]);
        }
      }
    case _ =>
  }

  // ----- the state in which the lists are closed -----

  lemma EmitNoPending(g: Gen, i: AInstr)
    requires g.jpc == []
    ensures Emit(g, i) == g.(code := g.code + [i])
  {
    assert Elems(g.jpc) == {};
    assert Patch(g.code, {}, |g.code|, NO_REG, |g.code|) == g.code;
  }

  lemma JumpShape(g: Gen)
    ensures Jump(g).0 == g.(code := g.code + [Jmp(Open)], jpc := [], ok := Jump(g).0.ok)
    ensures Jump(g).1 == [|g.code| as nat] + g.jpc
  {
    EmitNoPending(g.(jpc := []), Jmp(Open));
  }

  lemma CodeLabelShape(g: Gen, reg: int, v: bool, skip: bool)
    requires g.jpc == []
    ensures CodeLabel(g, reg, v, skip) == g.(code := g.code + [LoadBool(reg, v, skip)], lasttarget := |g.code|)
  {
    EmitNoPending(GetLabel(g), LoadBool(reg, v, skip));
  }

  /** The jump over the loads (unless control falls into them) and the two loads. */
  function Loads(reg: int, vj: bool): Code {
    (if vj then [] else [Jmp(Open)]) + [LoadBool(reg, false, true), LoadBool(reg, true, false)]
  }

  lemma WithLoadsShape(g: Gen, vj: bool, reg: int)
    requires WFGen(g) && (vj ==> g.jpc == [])
    ensures var g4 := WithLoads(g, vj, reg);
            && g4.code == g.code + Loads(reg, vj) && g4.lasttarget == |g4.code|
            && g4.jpc == (if vj then [] else [|g.code| as nat] + g.jpc)
            && g4.freereg == g.freereg && g4.nactvar == g.nactvar && g4.maxstack == g.maxstack
  {
    if !vj { JumpShape(g); }
    var g1 := if vj then g else Jump(g).0;
    hide Jump, CodeLabel;
    CodeLabelShape(g1, reg, false, true);
    CodeLabelShape(CodeLabel(g1, reg, false, true), reg, true, false);
    assert g.code + [Jmp(Open)] + [LoadBool(reg, false, true)] + [LoadBool(reg, true, false)] == g.code
        + Loads(reg, false);
    assert g.code + [LoadBool(reg, false, true)] + [LoadBool(reg, true, false)] == g.code + Loads(reg, true);
  }

  lemma LoadsWF(c: Code, reg: int, vj: bool)
    requires WFCode(c)
    ensures WFCode(c + Loads(reg, vj))
    ensures Entry(c + Loads(reg, vj), |c| + |Loads(reg, vj)| - 2)
    ensures HasLoads(c + Loads(reg, vj), reg, |c| + |Loads(reg, vj)| - 2)
    ensures forall lt: int :: TargetsLabelled(c, lt) ==> TargetsLabelled(c + Loads(reg, vj), lt)
  {
    EntryEnd(c);
    var d := c + Loads(reg, vj);
    forall pc: nat | pc < |d| ensures WFAt(d, pc) {
      if pc < |c| { assert WFAt(c, pc); }
    }
  }

  /** Appending to code at whose end nobody needs to be resolved. */
  lemma ExtendWF(g: Gen, d: Code, jpc: seq<nat>)
    requires WFGen(g) && WFCode(g.code + d) && TargetsLabelled(g.code + d, g.lasttarget)
    requires (|d| >= 1 && d[0] == Jmp(Open) && jpc == [|g.code| as nat] + g.jpc) || jpc == [] == g.jpc
    ensures WFGen(g.(code := g.code + d, jpc := jpc, lasttarget := |g.code + d|))
    ensures KeepsOpen(g, {}, g.(code := g.code + d, jpc := jpc, lasttarget := |g.code + d|))
  {
    var g4 := g.(code := g.code + d, jpc := jpc, lasttarget := |g.code + d|);
    forall j | j in Elems(jpc) ensures OpenAt(g4.code, j) {
      if j != |g.code| { assert j in Elems(g.jpc); assert OpenAt(g.code, j); }
    }
    forall i, j | 0 <= i < j < |jpc| ensures jpc[i] != jpc[j] {
      assert jpc[j] in Elems(g.jpc); assert OpenAt(g.code, jpc[j]);
    }
    forall j | OpenAt(g.code, j) && j !in g.jpc
      ensures OpenAt(g4.code, j) && j !in g4.jpc && Control(g4.code, j) == Control(g.code, j) {}
  }

  lemma WithLoadsWF(g: Gen, vj: bool, reg: int)
    requires WFGen(g) && (vj ==> g.jpc == []) && WithLoads(g, vj, reg).ok
    ensures var g4 := WithLoads(g, vj, reg);
            WFGen(g4) && KeepsOpen(g, {}, g4)
  {
    WithLoadsShape(g, vj, reg);
    LoadsWF(g.code, reg, vj);
    var g4 := WithLoads(g, vj, reg);
    assert TargetsLabelled(g.code + Loads(reg, vj), g.lasttarget);
    hide WithLoads, WFCode, TargetsLabelled, RunFrom;
    ExtendWF(g, Loads(reg, vj), g4.jpc);
    assert g4 == g.(code := g4.code, jpc := g4.jpc, lasttarget := g4.lasttarget, ok := g4.ok, consts := g4.consts);
  }

  lemma LoadsRun(c: Code, reg: int, vj: bool, env: Env, r: Regs)
    ensures RunFrom(c + Loads(reg, vj), env, |c|, r) == if vj then Reach(r[reg := Bool(false)]) else Exit(|c|, r)
  {
    var d := c + Loads(reg, vj);
    if vj {
      assert d[|c|] == LoadBool(reg, false, true);
      assert Step(d, env, |c|, r) == Go(|c| + 2, r[reg := Bool(false)]);
    } else {
      assert d[|c|] == Jmp(Open);
    }
  }

  lemma WithLoadsRun(g: Gen, vj: bool, reg: int, env: Env, r: Regs)
    requires WFGen(g) && (vj ==> g.jpc == [])
    ensures RunFrom(WithLoads(g, vj, reg).code, env, 0, r) ==
            match RunFrom(g.code, env, 0, r)
            case Reach(r1) => if vj then Reach(r1[reg := Bool(false)]) else Exit(|g.code|, r1)
            case o => o
  {
    WithLoadsShape(g, vj, reg);
    EntryEnd(g.code);
    hide WithLoads, RunFrom, Loads;
    RunAppend(g.code, Loads(reg, vj), env, 0, r);
    if RunFrom(g.code, env, 0, r).Reach? { LoadsRun(g.code, reg, vj, env, RunFrom(g.code, env, 0, r).regs); }
  }

  /** The meaning of an expression whose value is in reg, or (vj) is false, when control
      passes its code, and is delivered by its lists otherwise. */
  ghost predicate ClosingSem(g: Gen, e: AExp, reg: int, vj: bool, fr: int, ex: int, env: Env, r: Regs, x: Ctx) {
    var out := At(g, env, r);
    match x
    case Any => true
    case Dead(o) => out == o && (o.Exit? ==> OpenAt(g.code, o.at) && o.at !in g.jpc && o.at !in e.t && o.at !in e.f)
                    && (o.Fail? || o.Done? || o.Exit?)
    case Live(r0, v) =>
      match out
      case Reach(r1) => Same(r0, r1, fr, ex) && v == Some(if vj then Bool(false) else Get(r1, reg))
      case Exit(j, r1) =>
        && Same(r0, r1, fr, ex)
        && (j in e.t || j in e.f)
        && Delivers(g.code, j, r1, v, j in e.t)
      case Fail => v.None?
      case _ => false
  }

  /** Patching both lists of a state whose lists are closable. */
  lemma PatchBothOk(g: Gen, e: AExp, reg: int, pF: nat, pT: nat, env: Env, r: Regs)
    requires WFGen(g) && ListsOk(g, e) && g.lasttarget == |g.code|
    requires Closable(g.code, Elems(e.f), Elems(e.t), reg, pF, pT)
    requires PatchBoth(g, e, |g.code|, reg, pF, pT).ok
    ensures var g' := PatchBoth(g, e, |g.code|, reg, pF, pT);
            && WFGen(g') && g'.jpc == g.jpc
            && KeepsOpen(g, Elems(e.t) + Elems(e.f), g')
            && ClosedOutcome(g.code, Elems(e.f), Elems(e.t), reg, RunFrom(g.code, env, 0, r),
                RunFrom(g'.code, env, 0, r))
  {
    hide Patch, RunFrom, WFCode, ClosedOutcome;
    var f, t, n := Elems(e.f), Elems(e.t), |g.code|;
    CloseRun(g.code, f, t, reg, pF, pT, env, r);
    ClosableDests(g.code, f, t, reg, pF, pT);
    PatchLeavesList(g.code, f, n, reg, pF, t, n, pT);
    var c1 := Patch(g.code, f, n, reg, pF);
    PatchWF(g.code, f, n, reg, pF);
    PatchTargets(g.code, f, n, reg, pF, n);
    PatchTargets(c1, t, n, reg, pT, n);
    var g' := PatchBoth(g, e, n, reg, pF, pT);
    assert g'.code == Patch(c1, t, n, reg, pT);
    forall j | OpenAt(g.code, j) && j !in f && j !in t
      ensures OpenAt(g'.code, j) && Control(g'.code, j) == Control(g.code, j)
    {
      PatchKeeps(g.code, f, n, reg, pF, j);
      PatchKeeps(c1, t, n, reg, pT, j);
    }
    assert AllOpen(g'.code, Elems(g.jpc));
  }

  /** Where closing leads, in terms of arriving at the current position. */
  ghost predicate ClosedAt(g: Gen, e: AExp, reg: int, vj: bool, o: Outcome, o': Outcome) {
    match o
    case Reach(r1) => o'.Reach? && OnlyReg(r1, o'.regs, reg) && (vj ==> Get(o'.regs, reg) == Bool(false))
        && (!vj ==> o'.regs == r1)
    case Exit(j, r1) =>
      if j in e.t || j in e.f then
        && o'.Reach? && OnlyReg(r1, o'.regs, reg)
        && forall v :: Delivers(g.code, j, r1, v, j in e.t) ==> v == Some(Get(o'.regs, reg))
      else o' == o
    case _ => o' == o
  }

  lemma ClosedMeaning(g: Gen, e: AExp, g': Gen, reg: int, vj: bool, fr: int, ex: int, env: Env, r: Regs, x: Ctx)
    requires ClosingSem(g, e, reg, vj, fr, ex, env, r, x)
    requires ClosedAt(g, e, reg, vj, At(g, env, r), At(g', env, r))
    requires KeepsOpen(g, Elems(e.t) + Elems(e.f), g')
    requires reg >= fr || reg == ex
    ensures Sem(g', e.(f := [], t := [], info := reg, k := VNONRELOC), fr, ex, env, r, x)
  {
    hide At, RunFrom;
  }

  lemma LoadsClosable(g: Gen, e: AExp, g1: Gen, reg: int)
    requires ListsOk(g, e) && KeepsOpen(g, {}, g1) && WFCode(g1.code) && 0 <= reg < MAXSTACK
    requires |g1.code| >= |g.code| + 2 && HasLoads(g1.code, reg, |g1.code| - 2) && Entry(g1.code, |g1.code| - 2)
    ensures ListsOk(g1, e)
    ensures Closable(g1.code, Elems(e.f), Elems(e.t), reg, |g1.code| - 2, |g1.code| - 1)
    ensures forall j :: j in e.t || j in e.f ==> Control(g1.code, j) == Control(g.code, j) && j < |g.code|
  {
    hide WFCode, Entry;
    KeepsLists(g, e, g1);
    forall j | j in e.t || j in e.f ensures j < |g.code| {
      assert j in Elems(e.t) || j in Elems(e.f);
      assert OpenAt(g.code, j);
    }
  }

  /** Putting together what the loads do and what the patches do. */
  lemma ComposeClosed(g: Gen, e: AExp, g1: Gen, g': Gen, reg: int, vj: bool, env: Env, r: Regs)
    requires g'.jpc == (if vj then [] else [|g.code| as nat] + g.jpc) && (vj ==> g.jpc == [])
    requires Apart(g.jpc, e.t) && Apart(g.jpc, e.f)
    requires forall j :: j in e.t || j in e.f ==> Control(g1.code, j) == Control(g.code, j) && j < |g.code| <= |g1.code|
    requires RunFrom(g.code, env, 0, r).Exit? ==> RunFrom(g.code, env, 0, r).at < |g.code|
    requires RunFrom(g1.code, env, 0, r) ==
             match RunFrom(g.code, env, 0, r)
             case Reach(r1) => if vj then Reach(r1[reg := Bool(false)]) else Exit(|g.code|, r1)
             case o => o
    requires ClosedOutcome(g1.code, Elems(e.f), Elems(e.t), reg, RunFrom(g1.code, env, 0, r),
        RunFrom(g'.code, env, 0, r))
    ensures ClosedAt(g, e, reg, vj, At(g, env, r), At(g', env, r))
  {
    hide RunFrom;
    match RunFrom(g.code, env, 0, r)
    case Exit(j, r1) =>
      if j in e.t || j in e.f {
        var o' := At(g', env, r);
        forall v | Delivers(g.code, j, r1, v, j in e.t) ensures v == Some(Get(o'.regs, reg)) {
          assert Delivers(g1.code, j, r1, v, j in Elems(e.t));
        }
      }
    case _ =>
  }

  /** The loads are in place and both lists may be patched. */
  ghost predicate LoadsInPlace(g: Gen, e: AExp, g1: Gen, reg: int) {
    && WFGen(g1) && g1.ok && ListsOk(g1, e) && |g.code| + 2 <= |g1.code| && g1.lasttarget == |g1.code|
    && Closable(g1.code, Elems(e.f), Elems(e.t), reg, |g1.code| - 2, |g1.code| - 1)
    && g1.jpc == (if e.k.VJMP? then [] else [|g.code| as nat] + g.jpc)
    && KeepsOpen(g, {}, g1)
    && g1.freereg == g.freereg && g1.nactvar == g.nactvar && g1.maxstack == g.maxstack
    && forall j :: j in e.t || j in e.f ==> Control(g1.code, j) == Control(g.code, j) && j < |g.code|
  }

  lemma WithLoadsInPlace(g: Gen, e: AExp, reg: int)
    requires WFGen(g) && ListsOk(g, e) && 0 <= reg < MAXSTACK
    requires e.k.VJMP? ==> g.jpc == []
    requires WithLoads(g, e.k.VJMP?, reg).ok
    ensures LoadsInPlace(g, e, WithLoads(g, e.k.VJMP?, reg), reg)
  {
    var vj := e.k.VJMP?;
    WithLoadsShape(g, vj, reg);
    WithLoadsWF(g, vj, reg);
    LoadsWF(g.code, reg, vj);
    hide WithLoads, Closable, TargetsLabelled, RunFrom;
    LoadsClosable(g, e, WithLoads(g, vj, reg), reg);
  }

  lemma CloseReady(g: Gen, e: AExp, g1: Gen, reg: int, env: Env, r: Regs)
    requires WFGen(g) && ListsOk(g, e) && LoadsInPlace(g, e, g1, reg) && (e.k.VJMP? ==> g.jpc == [])
    requires RunFrom(g1.code, env, 0, r) ==
             match RunFrom(g.code, env, 0, r)
             case Reach(r1) => if e.k.VJMP? then Reach(r1[reg := Bool(false)]) else Exit(|g.code|, r1)
             case o => o
    requires PatchBoth(g1, e, |g1.code|, reg, |g1.code| - 2, |g1.code| - 1).ok
    ensures var g' := PatchBoth(g1, e, |g1.code|, reg, |g1.code| - 2, |g1.code| - 1);
            && WFGen(g') && KeepsOpen(g, Elems(e.t) + Elems(e.f), g')
            && ClosedAt(g, e, reg, e.k.VJMP?, At(g, env, r), At(g', env, r))
  {
    hide RunFrom, Closable, At, ClosedAt, ClosedOutcome, WFGen, Patch;
    var n := |g1.code|;
    var g' := PatchBoth(g1, e, n, reg, n - 2, n - 1);
    PatchBothOk(g1, e, reg, n - 2, n - 1, env, r);
    KeepsTrans(g, {}, g1, Elems(e.t) + Elems(e.f), g');
    assert {} + (Elems(e.t) + Elems(e.f)) == Elems(e.t) + Elems(e.f);
    RunExit(g.code, env, 0, r);
    ComposeClosed(g, e, g1, g', reg, e.k.VJMP?, env, r);
  }

  lemma CloseWithLoads(g: Gen, e: AExp, reg: int, env: Env, r: Regs)
    requires WFGen(g) && ListsOk(g, e) && 0 <= reg < MAXSTACK
    requires NeedValue(g.code, e.t) || NeedValue(g.code, e.f)
    requires e.k.VJMP? ==> g.jpc == []
    requires CloseJumps(g, e, reg).ok
    ensures var g' := CloseJumps(g, e, reg);
            && WFGen(g') && KeepsOpen(g, Elems(e.t) + Elems(e.f), g')
            && g'.freereg == g.freereg && g'.nactvar == g.nactvar && g'.maxstack == g.maxstack
            && ClosedAt(g, e, reg, e.k.VJMP?, At(g, env, r), At(g', env, r))
  {
    var vj := e.k.VJMP?;
    hide RunFrom, At, ClosedAt, WFGen, WithLoads, ListsOk, NeedValue, KeepsOpen, Patch;
    WithLoadsRun(g, vj, reg, env, r);
    WithLoadsInPlace(g, e, reg);
    CloseReady(g, e, WithLoads(g, vj, reg), reg, env, r);
  }

  lemma CloseTestSets(g: Gen, e: AExp, reg: int, env: Env, r: Regs)
    requires WFGen(g) && g.ok && ListsOk(g, e) && 0 <= reg < MAXSTACK
    requires !NeedValue(g.code, e.t) && !NeedValue(g.code, e.f) && !e.k.VJMP?
    requires CloseJumps(g, e, reg).ok
    ensures var g' := CloseJumps(g, e, reg);
            && WFGen(g') && KeepsOpen(g, Elems(e.t) + Elems(e.f), g')
            && g'.freereg == g.freereg && g'.nactvar == g.nactvar && g'.maxstack == g.maxstack
            && ClosedAt(g, e, reg, false, At(g, env, r), At(g', env, r))
  {
    var g1 := GetLabel(g);
    var n := |g1.code|;
    assert WFGen(g1) && ListsOk(g1, e);
    assert Closable(g1.code, Elems(e.f), Elems(e.t), reg, n, n);
    PatchBothOk(g1, e, reg, n, n, env, r);
  }

  // ----- exp2reg -----

  /** A comparison's own jump joins the true list. */
  function OwnJump(e: AExp): AExp {
    e.(t := e.t + (if e.k.VJMP? then JumpAt(e.info) else []))
  }

  lemma OwnJumpOk(ops: Ops, g: Gen, e: AExp, reg: int, fr: int, ex: int, env: Env, r: Regs, x: Ctx)
    requires WFGen(g) && ListsOk(g, e) && KindOk(ops, g, e) && Sem(g, e, fr, ex, env, r, x)
    requires e.k.VJMP? || (e.k.VNONRELOC? && e.info == reg)
    ensures var e2 := OwnJump(e);
            && ListsOk(g, e2) && ClosingSem(g, e2, reg, e.k.VJMP?, fr, ex, env, r, x)
            && (e.k.VJMP? ==> NeedValue(g.code, e2.t))
            && forall j :: MyJump(e, j) <==> j in e2.t || j in e2.f
  {
    hide RunFrom, At;
    var e2 := OwnJump(e);
    if e.k.VJMP? {
      assert e2.t == e.t + [e.info as nat];
      assert (e.info as nat) in e2.t;
      forall i, j | 0 <= i < j < |e2.t| ensures e2.t[i] != e2.t[j] {
        if j == |e.t| { assert e.t[i] in e.t; }
      }
    }
  }

  lemma CloseFrame(g: Gen, e: AExp, g': Gen, reg: int)
    requires KeepsOpen(g, Elems(OwnJump(e).t) + Elems(e.f), g')
    requires forall j :: MyJump(e, j) <==> j in OwnJump(e).t || j in e.f
    ensures Frame(g, e, g', e.(f := [], t := [], info := reg, k := VNONRELOC))
  {
  }

  ghost predicate InReg(g: Gen, e: AExp, g': Gen, e': AExp, reg: int) {
    && WFGen(g') && g'.ok
    && g'.freereg == g.freereg && g'.nactvar == g.nactvar && g'.maxstack == g.maxstack
    && e'.k.VNONRELOC? && e'.info == reg && e'.t == [] && e'.f == []
    && Frame(g, e, g', e')
  }

  lemma CloseOk(ops: Ops, g: Gen, e: AExp, reg: int, fr: int, ex: int, env: Env, r: Regs, x: Ctx)
    requires WFGen(g) && g.ok && ListsOk(g, e) && KindOk(ops, g, e) && Sem(g, e, fr, ex, env, r, x)
    requires e.k.VJMP? || (e.k.VNONRELOC? && e.info == reg)
    requires HasJumps(OwnJump(e)) && CloseJumps(g, OwnJump(e), reg).ok
    requires 0 <= reg < MAXSTACK && (reg >= fr || reg == ex)
    ensures var e' := e.(f := [], t := [], info := reg, k := VNONRELOC);
            var g' := CloseJumps(g, OwnJump(e), reg);
            InReg(g, e, g', e', reg) && Sem(g', e', fr, ex, env, r, x)
  {
    hide RunFrom, At, ClosedAt, WFGen, WithLoads, PatchBoth, KeepsOpen, NeedValue, ClosingSem;
    OwnJumpOk(ops, g, e, reg, fr, ex, env, r, x);
    var e2 := OwnJump(e);
    if NeedValue(g.code, e2.t) || NeedValue(g.code, e2.f) {
      CloseWithLoads(g, e2, reg, env, r);
    } else {
      CloseTestSets(g, e2, reg, env, r);
    }
    hide Sem, CloseJumps;
    var g' := CloseJumps(g, e2, reg);
    ClosedMeaning(g, e2, g', reg, e.k.VJMP?, fr, ex, env, r, x);
    assert e2.(f := [], t := [], info := reg, k := VNONRELOC) == e.(f := [], t := [], info := reg, k := VNONRELOC);
    CloseFrame(g, e, g', reg);
  }

  /** exp2reg: the value of the expression, however it was pending, is in `reg`. */
  lemma Exp2RegOk(ops: Ops, g: Gen, e: AExp, reg: int, fr: int, ex: int, env: Env, r: Regs, x: Ctx)
    requires Shape(ops, g, e, fr) && !IsVar(e.k) && Sem(g, e, fr, ex, env, r, x)
    requires Exp2Reg(g, e, reg).0.ok && Exp2Reg(g, e, reg).0.consts <= env.k
    requires Clean(g, r) && 0 <= reg < MAXSTACK && (reg >= fr || reg == ex)
    ensures var (g', e') := Exp2Reg(g, e, reg);
            InReg(g, e, g', e', reg) && Sem(g', e', fr, ex, env, r, x)
  {
    hide RunFrom, At, Frame, WFGen, CloseJumps, Discharge2Reg, Sem;
    var (g1, e1) := Discharge2Reg(g, e, reg);
    Discharge2RegOk(ops, g, e, reg, fr, ex, env, r, x);
    var (g', e') := Exp2Reg(g, e, reg);
    var e2 := OwnJump(e1);
    var (g2, t) := ConcatLists(g1, e1.t, if e1.k.VJMP? then JumpAt(e1.info) else []);
    assert g2 == g1.(ok := true) == g1 && e1.(t := t) == e2;
    if HasJumps(e2) {
      CloseOk(ops, g1, e1, reg, fr, ex, env, r, x);
    } else {
      FrameRefl(g1, e1);
      assert e1.t == [] by { assert e2.t == []; assert |e1.t| <= |e2.t|; }
      assert e' == e1;
    }
    FrameTrans(g, e, g1, e1, g', e');
  }
}
