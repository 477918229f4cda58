/** What every generator state satisfies, and what the emitting primitives do to runs. */
module GenInvariant {
  import opened Common
  import opened LuaValues
  import opened Opcodes
  import opened PartialCode
  import opened CodeGen

  /** Every resolved jump lands no later than the last label. */
  ghost predicate TargetsLabelled(c: Code, lasttarget: int) {
    forall pc: nat :: pc < |c| && c[pc].Jmp? && c[pc].j.To? ==> c[pc].j.pc <= lasttarget
  }

  ghost predicate WFGen(g: Gen) {
    && WFCode(g.code)
    && -1 <= g.lasttarget <= |g.code|
    && TargetsLabelled(g.code, g.lasttarget)
    && AllOpen(g.code, Elems(g.jpc))
    && NoDup(g.jpc)
    && (g.jpc != [] ==> g.lasttarget == |g.code|)
    && (g.ok ==> g.nactvar <= g.freereg <= g.maxstack < MAXSTACK)
  }

  /** Outcome at the current position: taking a jump that waits for it counts as arriving. */
  ghost function At(g: Gen, env: Env, r: Regs): Outcome {
    match RunFrom(g.code, env, 0, r)
    case Exit(j, r') => if j in g.jpc then Reach(r') else Exit(j, r')
    case o => o
  }

  /** getjumpcontrol: the test in front of a jump, if any. */
  function Control(c: Code, j: nat): Option<AInstr> {
    if 1 <= j <= |c| && IsTest(c[j - 1]) then Some(c[j - 1]) else None
  }

  /** Open jumps that belong to nobody in l or jpc, and the tests in front of them, stay. */
  ghost predicate KeepsOpen(g: Gen, l: set<nat>, g': Gen) {
    forall j {:trigger OpenAt(g'.code, j)} {:trigger j in g'.jpc} :: OpenAt(g.code, j) && j !in g.jpc && j !in l ==>
      OpenAt(g'.code, j) && j !in g'.jpc && Control(g'.code, j) == Control(g.code, j)
  }

  lemma KeepsTrans(g: Gen, l1: set<nat>, g1: Gen, l2: set<nat>, g2: Gen)
    requires KeepsOpen(g, l1, g1) && KeepsOpen(g1, l2, g2)
    ensures KeepsOpen(g, l1 + l2, g2)
  {
  }

  lemma EntryEnd(c: Code)
    requires WFCode(c)
    ensures Entry(c, |c|) && Entry(c, 0)
  {
    if |c| > 0 { assert WFAt(c, |c| - 1); }
  }

  lemma PatchKeeps(c: Code, l: set<nat>, vtarget: nat, reg: int, dtarget: nat, j: nat)
    requires WFCode(c) && OpenAt(c, j) && j !in l && AllOpen(c, l)
    ensures var c' := Patch(c, l, vtarget, reg, dtarget);
            OpenAt(c', j) && Control(c', j) == Control(c, j)
  {
    if j > 0 && j - 1 in l { assert OpenAt(c, j - 1); }
  }

  lemma PatchTargets(c: Code, l: set<nat>, vtarget: nat, reg: int, dtarget: nat, lasttarget: int)
    requires TargetsLabelled(c, lasttarget) && vtarget <= lasttarget && dtarget <= lasttarget
    ensures TargetsLabelled(Patch(c, l, vtarget, reg, dtarget), lasttarget)
  {
  }

  lemma HereIsGood(g: Gen)
    requires WFGen(g)
    ensures GoodDests(g.code, Elems(g.jpc), |g.code|, |g.code|)
  {
    EntryEnd(g.code);
  }

  lemma DischargeWF(g: Gen)
    requires WFGen(g)
    ensures var d := DischargeJpc(g);
            WFGen(d) && |d.code| == |g.code| && d.jpc == [] && KeepsOpen(g, {}, d)
  {
    HereIsGood(g);
    var n := |g.code|;
    var l := Elems(g.jpc);
    PatchWF(g.code, l, n, NO_REG, n);
    var d := DischargeJpc(g);
    if g.jpc == [] {
      assert d.code == g.code;
    } else {
      PatchTargets(g.code, l, n, NO_REG, n, g.lasttarget);
    }
    forall j | OpenAt(g.code, j) && j !in g.jpc ensures OpenAt(d.code, j) && Control(d.code, j) == Control(g.code, j) {
      PatchKeeps(g.code, l, n, NO_REG, n, j);
    }
  }

  lemma DischargeRun(g: Gen, env: Env, r: Regs)
    requires WFGen(g)
    ensures var d := DischargeJpc(g);
            RunFrom(d.code, env, 0, r) == At(g, env, r) == At(d, env, r)
  {
    HereIsGood(g);
    EntryEnd(g.code);
    RunPatch(g.code, Elems(g.jpc), |g.code|, NO_REG, |g.code|, env, 0, r);
    RunExit(g.code, env, 0, r);
  }

  /** A run leaves through an open jump only. */
  lemma {:induction false} RunExit(c: Code, env: Env, pc: nat, r: Regs)
    ensures var o := RunFrom(c, env, pc, r);
            o.Exit? ==> OpenAt(c, o.at)
    decreases |c| - pc
  {
    if pc < |c| {
      StepExit(c, env, pc, r);
      match Step(c, env, pc, r)
      case Stop(_) =>
      case Go(pc', r') => if pc < pc' { RunExit(c, env, pc', r'); }
    }
  }

  /** The outcome after one more plain instruction. */
  ghost function ThenPlain(o: Outcome, env: Env, i: AInstr): Outcome
    requires IsPlain(i)
  {
    match o
    case Reach(r') =>
      (match ExecPlain(env, i, r')
       case None => Fail
       case Some(r'') => Reach(r''))
    case _ => o
  }

  lemma AppendWF(c: Code, i: AInstr)
    requires WFCode(c) && (GoodPlain(i) || i == Jmp(Open) || i.Return?)
    ensures WFCode(c + [i])
  {
    forall pc: nat | pc < |c + [i]| ensures WFAt(c + [i], pc) {
      if pc < |c| { assert WFAt(c, pc); }
    }
  }

  lemma EmitWF(g: Gen, i: AInstr)
    requires WFGen(g) && GoodPlain(i)
    ensures var g' := Emit(g, i);
            && WFGen(g') && g'.jpc == [] && |g'.code| == |g.code| + 1
            && KeepsOpen(g, {}, g')
            && g'.code[..|g.code|] == DischargeJpc(g).code
            && g'.code[|g.code|] == i
  {
    DischargeWF(g);
    AppendWF(DischargeJpc(g).code, i);
  }

  lemma EmitRun(g: Gen, i: AInstr, env: Env, r: Regs)
    requires WFGen(g) && GoodPlain(i)
    ensures var g' := Emit(g, i);
            && At(g', env, r) == ThenPlain(At(g, env, r), env, i)
            && RunFrom(g'.code, env, 0, r) == At(g', env, r)
            && RunFrom(g'.code[..|g.code|], env, 0, r) == At(g, env, r)
  {
    DischargeWF(g);
    DischargeRun(g, env, r);
    var d := DischargeJpc(g);
    var g' := Emit(g, i);
    EntryEnd(d.code);
    RunAppend(d.code, [i], env, 0, r);
    assert g'.code == d.code + [i];
    assert g'.code[..|g.code|] == d.code;
  }

  lemma JumpRun(g: Gen, env: Env, r: Regs)
    requires WFGen(g) && g.jpc == []
    ensures var c' := DischargeJpc(g).code + [Jmp(Open)];
            && c' == g.code + [Jmp(Open)] && WFCode(c')
            && RunFrom(c', env, 0, r) ==
               match RunFrom(g.code, env, 0, r)
               case Reach(r') => Exit(|g.code|, r')
               case o => o
  {
    assert Patch(g.code, {}, |g.code|, NO_REG, |g.code|) == g.code;
    assert Elems(g.jpc) == {};
    AppendWF(g.code, Jmp(Open));
    EntryEnd(g.code);
    RunAppend(g.code, [Jmp(Open)], env, 0, r);
  }

  lemma JumpWF(g: Gen)
    requires WFGen(g)
    ensures var (g', l) := Jump(g);
            && WFGen(g') && g'.jpc == [] && l == [|g.code| as nat] + g.jpc && |g'.code| == |g.code| + 1
            && AllOpen(g'.code, Elems(l)) && NoDup(l)
            && g'.code == g.code + [Jmp(Open)]
            && KeepsOpen(g, {}, g')
  {
    var h := g.(jpc := []);
    assert Elems(h.jpc) == {};
    assert Patch(g.code, {}, |g.code|, NO_REG, |g.code|) == g.code;
    AppendWF(g.code, Jmp(Open));
    var (g', l) := Jump(g);
    assert g'.code == g.code + [Jmp(Open)];
    forall j | j in Elems(l) ensures OpenAt(g'.code, j) {
      if j != |g.code| { assert j in g.jpc; assert j in Elems(g.jpc); assert OpenAt(g.code, j); }
    }
    forall i, j | 0 <= i < j < |l| ensures l[i] != l[j] {
      if i == 0 { assert l[j] in Elems(g.jpc); assert OpenAt(g.code, l[j]); }
    }
  }

  /** luaK_jump: whoever arrives here, or was waiting to, leaves through the new list. */
  lemma JumpSem(g: Gen, env: Env, r: Regs)
    requires WFGen(g)
    ensures var (g', l) := Jump(g);
            match RunFrom(g'.code, env, 0, r)
            case Exit(j, r') => if j in l then At(g, env, r) == Reach(r') else At(g, env, r) == Exit(j, r')
            case o => At(g, env, r) == o && !o.Reach?
  {
    JumpWF(g);
    JumpRun(g.(jpc := []), env, r);
    RunExit(g.code, env, 0, r);
  }

  ghost function ThenTest(o: Outcome, env: Env, i: AInstr, at: nat): Outcome
    requires IsTest(i)
  {
    match o
    case Reach(r') =>
      (match TestTaken(env, i, r')
       case None => Fail
       case Some(true) => Exit(at, r')
       case Some(false) => Reach(r'))
    case _ => o
  }

  lemma CondJumpWF(g: Gen, i: AInstr)
    requires WFGen(g) && IsTest(i)
    ensures var (g', l) := CondJump(g, i);
            var n := |g.code|;
            && WFGen(g') && g'.jpc == [] && l == [n + 1] && |g'.code| == n + 2
            && g'.code == DischargeJpc(g).code + [i, Jmp(Open)]
            && g'.code[n] == i && g'.code[n + 1] == Jmp(Open)
            && g' == g.(code := g'.code, jpc := [], ok := g'.ok)
            && KeepsOpen(g, {}, g')
  {
    DischargeWF(g);
    var d := DischargeJpc(g).code;
    var (g', l) := CondJump(g, i);
    var g1 := Emit(g, i);
    assert Elems(g1.jpc) == {};
    assert Patch(g1.code, {}, |g1.code|, NO_REG, |g1.code|) == g1.code;
    assert g'.code == d + [i, Jmp(Open)];
    forall pc: nat | pc < |g'.code| ensures WFAt(g'.code, pc) {
      if pc < |d| { assert WFAt(d, pc); }
    }
  }

  lemma TestRun(p: Code, i: AInstr, env: Env, r: Regs)
    requires WFCode(p) && IsTest(i)
    ensures RunFrom(p + [i, Jmp(Open)], env, 0, r) == ThenTest(RunFrom(p, env, 0, r), env, i, |p| + 1)
  {
    EntryEnd(p);
    RunAppend(p, [i, Jmp(Open)], env, 0, r);
  }

  lemma CondJumpRun(g: Gen, i: AInstr, env: Env, r: Regs)
    requires WFGen(g) && IsTest(i)
    ensures var (g', l) := CondJump(g, i);
            At(g', env, r) == RunFrom(g'.code, env, 0, r) == ThenTest(At(g, env, r), env, i, |g.code| + 1)
  {
    CondJumpWF(g, i);
    DischargeWF(g);
    DischargeRun(g, env, r);
    TestRun(DischargeJpc(g).code, i, env, r);
  }
}
