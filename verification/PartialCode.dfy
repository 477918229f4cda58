/** Running code whose jumps may still be unresolved. A jump waiting in a patch list is
    `Open`; running into it leaves the program at that jump. */
module PartialCode {
  import opened Common
  import opened LuaValues
  import opened Opcodes

  datatype Dest = Open | To(pc: nat)

  type AInstr = Instr<Dest>
  type Code = seq<AInstr>

  datatype Outcome =
    | Reach(regs: Regs)           // control is just after the last instruction
    | Exit(at: nat, regs: Regs)   // control is at an open jump that is being taken
    | Done(results: seq<Value>)   // the function returned
    | Fail                        // run-time error
    | Stuck                       // malformed code

  function RK(env: Env, r: Regs, x: int): Value {
    if !IsK(x) then Get(r, x)
    else if 0 <= x - BITRK < |env.k| then env.k[x - BITRK]
    else Nil
  }

  function Const(env: Env, i: int): Value {
    if 0 <= i < |env.k| then env.k[i] else Nil
  }

  /** Right-associated concatenation of registers b..c. */
  function ConcatRange(ops: Ops, r: Regs, b: int, c: int): Option<Value>
    decreases c - b
  {
    if b >= c then Some(Get(r, c))
    else
      match ConcatRange(ops, r, b + 1, c)
      case None => None
      case Some(v) => ops.concat(Get(r, b), v)
  }

  /** The value a relocatable instruction computes. */
  function RelocValue<J>(env: Env, i: Instr<J>, r: Regs): Option<Value>
    requires IsReloc(i)
  {
    match i
    case GetUpval(_, b) => Some(env.upval(b))
    case GetGlobal(_, bx) => Some(env.global(Const(env, bx)))
    case GetTable(_, b, c) => env.ops.index(Get(r, b), RK(env, r, c))
    case Arith(op, _, b, c) => ArithValue(env.ops, op, RK(env, r, b), RK(env, r, c))
    case Unm(_, b) => UnmValue(env.ops, Get(r, b))
    case Not(_, b) => Some(NotValue(Get(r, b)))
    case Len(_, b) => env.ops.len(Get(r, b))
    case Concat(_, b, c) => ConcatRange(env.ops, r, b, c)
  }

  function FillNil(r: Regs, a: int, b: int): Regs
    decreases b - a
  {
    if b < a then r else FillNil(r, a, b - 1)[b := Nil]
  }

  /** Registers b to d after registers b to c have been concatenated. */
  function FillJunk(ops: Ops, r: Regs, b: int, c: int, d: int): Regs
    decreases d - b
  {
    if d < b then r else FillJunk(ops, r, b, c, d - 1)[d := ops.junk(r, b, c, d)]
  }

  /** Instructions that fall through to the next one. */
  predicate IsPlain<J>(i: Instr<J>) {
    IsReloc(i) || i.Move? || i.LoadK? || i.LoadNil? || (i.LoadBool? && !i.skip)
  }

  predicate GoodPlain<J>(i: Instr<J>) {
    IsPlain(i) && (i.LoadNil? ==> i.a <= i.b)
  }

  function ExecPlain<J>(env: Env, i: Instr<J>, r: Regs): Option<Regs>
    requires IsPlain(i)
  {
    match i
    case Move(a, b) => Some(r[a := Get(r, b)])
    case LoadK(a, bx) => Some(r[a := Const(env, bx)])
    case LoadBool(a, v, _) => Some(r[a := Bool(v)])
    case LoadNil(a, b) => Some(FillNil(r, a, b)[b := Nil])
    case _ =>
      match RelocValue(env, i, r)
      case None => None
      case Some(v) =>
        var r' := if i.Concat? then FillJunk(env.ops, r, i.b, i.c, i.c) else r;
        Some(r'[i.a := v])
  }

  /** Whether a test takes the jump that follows it. */
  function TestTaken<J>(env: Env, i: Instr<J>, r: Regs): Option<bool>
    requires IsTest(i)
  {
    match i
    case Cmp(op, cond, b, c) =>
      (match Compare(env.ops, op, RK(env, r, b), RK(env, r, c))
       case None => None
       case Some(x) => Some(x == cond))
    case Test(a, flag) => Some(IsFalse(Get(r, a)) != flag)
    case TestSet(_, b, flag) => Some(IsFalse(Get(r, b)) != flag)
  }

  /** What a taken test does to the registers. */
  function TestRegs<J>(i: Instr<J>, r: Regs): Regs
    requires IsTest(i)
  {
    if i.TestSet? then r[i.a := Get(r, i.b)] else r
  }

  function Results(r: Regs, a: int, n: int): seq<Value>
    decreases n
  {
    if n <= 0 then [] else [Get(r, a)] + Results(r, a + 1, n - 1)
  }

  datatype Next = Go(pc: nat, regs: Regs) | Stop(o: Outcome)

  /** Where the jump at position j leads; its effect is in `r` already unless it is open. */
  function TakeJump(c: Code, j: nat, open: Regs, r: Regs): Next
    requires j < |c| && c[j].Jmp?
  {
    match c[j].j
    case Open => Stop(Exit(j, open))
    case To(t) => Go(t, r)
  }

  /** One instruction, a test together with its jump. A TESTSET whose jump is still open
      has no destination register yet, so it leaves the registers alone. */
  function Step(c: Code, env: Env, pc: nat, r: Regs): Next
    requires pc < |c|
  {
    var i := c[pc];
    if i.Jmp? then TakeJump(c, pc, r, r)
    else if IsTest(i) then
      (if pc + 1 >= |c| || !c[pc + 1].Jmp? then Stop(Stuck)
       else
         match TestTaken(env, i, r)
         case None => Stop(Fail)
         case Some(false) => Go(pc + 2, r)
         case Some(true) => TakeJump(c, pc + 1, r, TestRegs(i, r)))
    else if i.LoadBool? && i.skip then Go(pc + 2, r[i.a := Bool(i.v)])
    else if i.Return? then Stop(Done(Results(r, i.a, i.b - 1)))
    else
      match ExecPlain(env, i, r)
      case None => Stop(Fail)
      case Some(r') => Go(pc + 1, r')
  }

  /** Run partial code from pc; all jumps of expression code go forward. */
  function RunFrom(c: Code, env: Env, pc: nat, r: Regs): Outcome
    decreases |c| - pc
  {
    if pc >= |c| then (if pc == |c| then Reach(r) else Stuck)
    else
      match Step(c, env, pc, r)
      case Stop(o) => o
      case Go(pc', r') => if pc < pc' then RunFrom(c, env, pc', r') else Stuck
  }

  // ----- shape of the code -----

  /** A place where control may arrive: not between a test and its jump. */
  predicate Entry(c: Code, t: nat) {
    t <= |c| && (t >= 1 ==> !IsTest(c[t - 1]))
  }

  predicate WFAt(c: Code, pc: nat)
    requires pc < |c|
  {
    && (IsTest(c[pc]) ==> pc + 1 < |c| && c[pc + 1].Jmp?)
    && (c[pc].LoadBool? && c[pc].skip ==> pc + 1 < |c| && c[pc + 1].LoadBool?)
    && (c[pc].LoadNil? ==> c[pc].a <= c[pc].b)
    && (c[pc].Jmp? && c[pc].j.To? ==> pc < c[pc].j.pc && Entry(c, c[pc].j.pc))
  }

  ghost predicate WFCode(c: Code) {
    forall pc: nat :: pc < |c| ==> WFAt(c, pc)
  }

  // ----- patching -----

  predicate ByTestSet(c: Code, j: nat)
    requires j < |c|
  {
    j >= 1 && c[j - 1].TestSet?
  }

  /** patchtestreg on one TESTSET. */
  function RetargetTest(i: AInstr, reg: int): AInstr
    requires i.TestSet?
  {
    if reg != NO_REG && reg != i.b then TestSet(reg, i.b, i.flag) else Test(i.b, i.flag)
  }

  function PatchDest(c: Code, j: nat, vtarget: nat, dtarget: nat): nat
    requires j < |c|
  {
    if ByTestSet(c, j) then vtarget else dtarget
  }

  function PatchInstr(c: Code, l: set<nat>, vtarget: nat, reg: int, dtarget: nat, i: nat): AInstr
    requires i < |c|
  {
    if i in l then Jmp(To(PatchDest(c, i, vtarget, dtarget)))
    else if i + 1 in l && c[i].TestSet? then RetargetTest(c[i], reg)
    else c[i]
  }

  /** patchlistaux over all members of a list. */
  function Patch(c: Code, l: set<nat>, vtarget: nat, reg: int, dtarget: nat): (c': Code)
    ensures |c'| == |c|
  {
    seq(|c|, i requires 0 <= i < |c| => PatchInstr(c, l, vtarget, reg, dtarget, i))
  }

  /** removevalues: the tests controlling the list no longer produce their value. */
  function Retest(c: Code, l: set<nat>): (c': Code)
    ensures |c'| == |c|
  {
    seq(|c|, i requires 0 <= i < |c| =>
      if i + 1 in l && c[i].TestSet? then RetargetTest(c[i], NO_REG) else c[i])
  }

  ghost predicate OpenAt(c: Code, j: nat) {
    j < |c| && c[j] == Jmp(Open)
  }

  ghost predicate AllOpen(c: Code, l: set<nat>) {
    forall j :: j in l ==> OpenAt(c, j)
  }

  ghost predicate GoodDests(c: Code, l: set<nat>, vtarget: nat, dtarget: nat) {
    forall j :: j in l && j < |c| ==>
      j < PatchDest(c, j, vtarget, dtarget) && Entry(c, PatchDest(c, j, vtarget, dtarget))
  }

  function PatchRegs(c: Code, j: nat, reg: int, r: Regs): Regs
    requires j < |c|
  {
    if ByTestSet(c, j) && reg != NO_REG && reg != c[j - 1].b then r[reg := Get(r, c[j - 1].b)] else r
  }

  lemma PatchWF(c: Code, l: set<nat>, vtarget: nat, reg: int, dtarget: nat)
    requires WFCode(c) && AllOpen(c, l) && GoodDests(c, l, vtarget, dtarget)
    ensures WFCode(Patch(c, l, vtarget, reg, dtarget))
    ensures forall t: nat :: Entry(c, t) ==> Entry(Patch(c, l, vtarget, reg, dtarget), t)
  {
    var c' := Patch(c, l, vtarget, reg, dtarget);
    forall t: nat | Entry(c, t) ensures Entry(c', t) {
      if t >= 1 { assert !IsTest(c[t - 1]); }
    }
    forall pc: nat | pc < |c'| ensures WFAt(c', pc) {
      assert WFAt(c, pc);
      if pc in l {
        assert OpenAt(c, pc);
        assert Entry(c, PatchDest(c, pc, vtarget, dtarget));
      }
      if pc + 1 in l { assert OpenAt(c, pc + 1); }
    }
  }

  lemma StepEntry(c: Code, env: Env, pc: nat, r: Regs)
    requires WFCode(c) && Entry(c, pc) && pc < |c|
    ensures var n := Step(c, env, pc, r);
            n.Go? ==> pc < n.pc && Entry(c, n.pc)
  {
    assert WFAt(c, pc);
    if IsTest(c[pc]) { assert WFAt(c, pc + 1); }
  }

  /** Appending code only matters to runs that reach the end. */
  lemma {:induction false} RunAppend(c: Code, d: Code, env: Env, pc: nat, r: Regs)
    requires WFCode(c) && Entry(c, pc)
    ensures RunFrom(c + d, env, pc, r) ==
            (match RunFrom(c, env, pc, r)
             case Reach(r') => RunFrom(c + d, env, |c|, r')
             case o => o)
    decreases |c| - pc
  {
    if pc < |c| {
      StepEntry(c, env, pc, r);
      assert Step(c + d, env, pc, r) == Step(c, env, pc, r) by { assert WFAt(c, pc); }
      match Step(c, env, pc, r)
      case Stop(_) =>
      case Go(pc', r') => RunAppend(c, d, env, pc', r');
    }
  }

  lemma PatchStep(c: Code, l: set<nat>, vtarget: nat, reg: int, dtarget: nat, env: Env, pc: nat, r: Regs)
    requires WFCode(c) && Entry(c, pc) && pc < |c|
    requires AllOpen(c, l)
    ensures Step(Patch(c, l, vtarget, reg, dtarget), env, pc, r) ==
            (match Step(c, env, pc, r)
             case Stop(Exit(j, r')) =>
               if j in l && j < |c| then Go(PatchDest(c, j, vtarget, dtarget), PatchRegs(c, j, reg, r'))
               else Stop(Exit(j, r'))
             case n => n)
  {
    assert WFAt(c, pc);
  }

  /** Resolving a list changes a run only where it left through a member of the list:
      there it goes on at the member's destination, with the value moved if asked for. */
  lemma {:induction false} RunPatch(c: Code, l: set<nat>, vtarget: nat, reg: int, dtarget: nat, env: Env, pc: nat,
      r: Regs)
    requires WFCode(c) && Entry(c, pc)
    requires AllOpen(c, l) && GoodDests(c, l, vtarget, dtarget)
    ensures var c' := Patch(c, l, vtarget, reg, dtarget);
            RunFrom(c', env, pc, r) ==
            match RunFrom(c, env, pc, r)
            case Exit(j, r') =>
              if j in l && j < |c| then
                RunFrom(c', env, PatchDest(c, j, vtarget, dtarget), PatchRegs(c, j, reg, r'))
              else Exit(j, r')
            case o => o
    decreases |c| - pc
  {
    if pc < |c| {
      StepEntry(c, env, pc, r);
      PatchStep(c, l, vtarget, reg, dtarget, env, pc, r);
      StepExit(c, env, pc, r);
      match Step(c, env, pc, r)
      case Stop(_) =>
      case Go(pc', r') => RunPatch(c, l, vtarget, reg, dtarget, env, pc', r');
    }
  }

  lemma StepExit(c: Code, env: Env, pc: nat, r: Regs)
    requires pc < |c|
    ensures var n := Step(c, env, pc, r);
            n.Stop? && n.o.Exit? ==> pc <= n.o.at < |c| && c[n.o.at] == Jmp(Open)
  {
  }

  /** Dropping the values of open jumps changes no run. */
  lemma {:induction false} RunRetest(c: Code, l: set<nat>, env: Env, pc: nat, r: Regs)
    requires WFCode(c) && Entry(c, pc) && AllOpen(c, l)
    ensures RunFrom(Retest(c, l), env, pc, r) == RunFrom(c, env, pc, r)
    decreases |c| - pc
  {
    if pc < |c| {
      StepEntry(c, env, pc, r);
      assert Step(Retest(c, l), env, pc, r) == Step(c, env, pc, r) by { assert WFAt(c, pc); }
      match Step(c, env, pc, r)
      case Stop(_) =>
      case Go(pc', r') => RunRetest(c, l, env, pc', r');
    }
  }

  lemma RetestWF(c: Code, l: set<nat>)
    requires WFCode(c) && AllOpen(c, l)
    ensures WFCode(Retest(c, l))
    ensures forall t: nat :: Entry(c, t) ==> Entry(Retest(c, l), t)
  {
    var c' := Retest(c, l);
    forall t: nat | Entry(c, t) ensures Entry(c', t) {
      if t >= 1 { assert !IsTest(c[t - 1]); }
    }
    forall pc: nat | pc < |c'| ensures WFAt(c', pc) {
      assert WFAt(c, pc);
    }
  }
}
