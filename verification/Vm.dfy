/** The interpreter loop (lvm.c) on the instructions of expressions, proved to do what
    running the symbolic code means. */
module Vm {
  import opened Common
  import opened LuaValues
  import opened Opcodes
  import opened PartialCode
  import opened JumpLists

  // ----- instructions that fall through -----

  lemma {:induction false} FillNilIs(r: Regs, a: int, b: int, i: int)
    ensures i in FillNil(r, a, b) <==> i in r || a <= i <= b
    ensures i in FillNil(r, a, b) ==> FillNil(r, a, b)[i] == if a <= i <= b then Nil else r[i]
    decreases b - a
  {
    if a <= b { FillNilIs(r, a, b - 1, i); }
  }

  /** OP_LOADNIL goes downwards from b, and sets b in any case. */
  method SetNils(r: Regs, a: int, b: int) returns (r': Regs)
    requires a <= b
    ensures r' == FillNil(r, a, b)[b := Nil]
  {
    r' := r[b := Nil];
    var rb := b - 1;
    while rb >= a
      invariant a - 1 <= rb < b
      invariant forall i :: i in r' <==> i in r || rb < i <= b
      invariant forall i :: i in r' ==> r'[i] == if rb < i <= b then Nil else r[i]
      decreases rb - a
    {
      r' := r'[rb := Nil];
      rb := rb - 1;
    }
    forall i ensures i in r' <==> i in FillNil(r, a, b)[b := Nil] {
      FillNilIs(r, a, b, i);
    }
    forall i | i in r' ensures r'[i] == FillNil(r, a, b)[b := Nil][i] {
      FillNilIs(r, a, b, i);
    }
  }

  lemma {:induction false} ConcatFails(ops: Ops, r: Regs, b: int, i: int, c: int)
    requires b <= i <= c && ConcatRange(ops, r, i, c).None?
    ensures ConcatRange(ops, r, b, c).None?
    decreases i - b
  {
    if b < i { ConcatFails(ops, r, b + 1, i, c); }
  }

  /** luaV_concat, from the last operand to the first. */
  method Concatenate(ops: Ops, r: Regs, b: int, c: int) returns (v: Option<Value>)
    ensures v == ConcatRange(ops, r, b, c)
  {
    var acc := Get(r, c);
    var i := c;
    while i > b
      invariant (b <= i <= c || i == c) && ConcatRange(ops, r, i, c) == Some(acc)
      decreases i - b
    {
      match ops.concat(Get(r, i - 1), acc) {
        case None =>
          ConcatFails(ops, r, b, i - 1, c);
          return None;
        case Some(x) => acc := x;
      }
      i := i - 1;
    }
    return Some(acc);
  }

  function Store(r: Regs, a: int, v: Option<Value>): Option<Regs> {
    match v
    case None => None
    case Some(x) => Some(r[a := x])
  }

  method ExecuteOne(i: CInstr, env: Env, r: Regs) returns (res: Option<Regs>)
    requires GoodPlain(i)
    ensures res == ExecPlain(env, i, r)
  {
    hide ConcatRange, FillNil, FillJunk;
    match i {
      case Move(a, b) => return Some(r[a := Get(r, b)]);
      case LoadK(a, bx) => return Some(r[a := Const(env, bx)]);
      case LoadBool(a, v, _) => return Some(r[a := Bool(v)]);
      case LoadNil(a, b) =>
        var r' := SetNils(r, a, b);
        return Some(r');
      case GetUpval(a, b) => return Some(r[a := env.upval(b)]);
      case GetGlobal(a, bx) => return Some(r[a := env.global(Const(env, bx))]);
      case GetTable(a, b, c) => return Store(r, a, env.ops.index(Get(r, b), RK(env, r, c)));
      case Arith(op, a, b, c) => return Store(r, a, ArithValue(env.ops, op, RK(env, r, b), RK(env, r, c)));
      case Unm(a, b) => return Store(r, a, UnmValue(env.ops, Get(r, b)));
      case Not(a, b) => return Some(r[a := NotValue(Get(r, b))]);
      case Len(a, b) => return Store(r, a, env.ops.len(Get(r, b)));
      case Concat(a, b, c) =>
        var v := Concatenate(env.ops, r, b, c);
        return Store(FillJunk(env.ops, r, b, c, c), a, v);
    }
  }

  // ----- the loop -----

  /** Complete code: nobody can leave through an open jump. */
  lemma SameExec(env: Env, i: AInstr, pc: nat, r: Regs)
    requires GoodPlain(i)
    ensures GoodPlain(Plain(i, pc)) && ExecPlain(env, Plain(i, pc), r) == ExecPlain(env, i, r)
  {
  }

  lemma SameTest(env: Env, i: AInstr, pc: nat, r: Regs)
    requires IsTest(i)
    ensures IsTest(Plain(i, pc)) && TestTaken(env, Plain(i, pc), r) == TestTaken(env, i, r)
    ensures TestRegs(Plain(i, pc), r) == TestRegs(i, r)
  {
  }

  ghost predicate Ends(o: Outcome) {
    o.Done? || o.Fail?
  }

  /** Complete code ends with a return, and no jump is open or leads out of it. */
  ghost predicate Complete(c: Code) {
    && WFCode(c) && c != [] && c[|c| - 1].Return?
    && forall pc :: 0 <= pc < |c| && c[pc].Jmp? ==> c[pc].j.To? && c[pc].j.pc < |c|
  }

  /** Complete code ends from every place, with any registers. */
  lemma {:induction false} CompleteEnds(c: Code, env: Env, pc: nat, r: Regs)
    requires Complete(c) && pc < |c|
    ensures Ends(RunFrom(c, env, pc, r))
    decreases |c| - pc
  {
    hide Complete, Step, RunFrom;
    CompleteStep(c, env, pc, r);
    StepEnds(c, env, pc, r);
    match Step(c, env, pc, r) {
      case Stop(o) =>
      case Go(pc', r') => CompleteEnds(c, env, pc', r');
    }
  }

  lemma CompleteStep(c: Code, env: Env, pc: nat, r: Regs)
    requires Complete(c) && pc < |c|
    ensures match Step(c, env, pc, r)
            case Stop(o) => Ends(o)
            case Go(pc', _) => pc < pc' < |c|
  {
    hide TestTaken, TestRegs, ExecPlain, Results;
    assert WFAt(c, pc);
    if IsTest(c[pc]) { assert WFAt(c, pc + 1); }
  }

  lemma StepEnds(c: Code, env: Env, pc: nat, r: Regs)
    requires pc < |c|
    ensures RunFrom(c, env, pc, r) ==
        match Step(c, env, pc, r) {
          case Stop(o) => o
          case Go(pc', r') => if pc < pc' then RunFrom(c, env, pc', r') else Stuck
        }
  {
    hide Step;
  }

  lemma RunStep(a: Code, env: Env, pc: nat, r: Regs)
    requires pc < |a| && Ends(RunFrom(a, env, pc, r))
    ensures match Step(a, env, pc, r)
            case Stop(o) => RunFrom(a, env, pc, r) == o
            case Go(pc', r') => pc < pc' < |a| && RunFrom(a, env, pc', r') == RunFrom(a, env, pc, r)
  {
    hide Step;
  }

  lemma RunJump(a: Code, env: Env, pc: nat, r: Regs)
    requires pc < |a| && a[pc].Jmp? && Ends(RunFrom(a, env, pc, r))
    ensures a[pc].j.To? && pc < a[pc].j.pc < |a| && RunFrom(a, env, a[pc].j.pc, r) == RunFrom(a, env, pc, r)
  {
    hide RunFrom;
    RunStep(a, env, pc, r);
    assert Step(a, env, pc, r) == TakeJump(a, pc, r, r);
  }

  lemma RunTest(a: Code, env: Env, pc: nat, r: Regs)
    requires pc < |a| && IsTest(a[pc]) && Ends(RunFrom(a, env, pc, r))
    ensures pc + 1 < |a| && a[pc + 1].Jmp?
    ensures TestTaken(env, a[pc], r) == None ==> RunFrom(a, env, pc, r) == Fail
    ensures TestTaken(env, a[pc], r) == Some(false) ==>
        pc + 2 < |a| && RunFrom(a, env, pc + 2, r) == RunFrom(a, env, pc, r)
    ensures TestTaken(env, a[pc], r) == Some(true) ==>
              && a[pc + 1].j.To? && pc < a[pc + 1].j.pc < |a|
              && RunFrom(a, env, a[pc + 1].j.pc, TestRegs(a[pc], r)) == RunFrom(a, env, pc, r)
  {
    hide TestTaken, TestRegs, RunFrom;
    RunStep(a, env, pc, r);
  }

  predicate FallsThrough(i: AInstr) {
    !i.Jmp? && !IsTest(i) && !i.Return? && !(i.LoadBool? && i.skip)
  }

  lemma StepPlain(a: Code, env: Env, pc: nat, r: Regs)
    requires pc < |a| && WFAt(a, pc) && FallsThrough(a[pc])
    ensures GoodPlain(a[pc])
    ensures Step(a, env, pc, r) == if ExecPlain(env, a[pc], r).None? then Stop(Fail)
        else Go(pc + 1, ExecPlain(env, a[pc], r).value)
  {
    hide ExecPlain;
  }

  lemma RunPlain(a: Code, env: Env, pc: nat, r: Regs)
    requires pc < |a| && WFAt(a, pc) && Ends(RunFrom(a, env, pc, r)) && FallsThrough(a[pc])
    ensures GoodPlain(a[pc])
    ensures ExecPlain(env, a[pc], r).None? ==> RunFrom(a, env, pc, r) == Fail
    ensures ExecPlain(env, a[pc], r).Some? ==>
              pc + 1 < |a| && RunFrom(a, env, pc + 1, ExecPlain(env, a[pc], r).value) == RunFrom(a, env, pc, r)
  {
    hide ExecPlain, RunFrom, Step, WFAt, FallsThrough, GoodPlain;
    StepPlain(a, env, pc, r);
    RunStep(a, env, pc, r);
  }

  lemma RunOther(a: Code, env: Env, pc: nat, r: Regs)
    requires pc < |a| && Ends(RunFrom(a, env, pc, r))
    ensures a[pc].Return? ==> RunFrom(a, env, pc, r) == Done(Results(r, a[pc].a, a[pc].b - 1))
    ensures a[pc].LoadBool? && a[pc].skip ==>
              pc + 2 < |a| && RunFrom(a, env, pc + 2, r[a[pc].a := Bool(a[pc].v)]) == RunFrom(a, env, pc, r)
  {
    hide ExecPlain, Results, RunFrom;
    RunStep(a, env, pc, r);
  }

  /** luaV_execute, up to the return from the function it was entered for. */
  method Execute(code: seq<CInstr>, env: Env, r0: Regs, ghost a: Code) returns (res: Option<seq<Value>>)
    requires CodeRep(code, a) && WFCode(a)
    requires Ends(RunFrom(a, env, 0, r0))
    ensures RunFrom(a, env, 0, r0) == if res.Some? then Done(res.value) else Fail
  {
    hide ExecPlain, TestTaken, TestRegs, RunFrom, Results, WFAt;
    Starts(a, env, r0);
    var pc, r := 0, r0;
    while true
      invariant 0 <= pc < |code| && RunFrom(a, env, pc, r) == RunFrom(a, env, 0, r0)
      decreases |code| - pc
    {
      var i := code[pc];
      assert InstrRep(i, a[pc], pc) && WFAt(a, pc);
      if i.Jmp? {
        RunJump(a, env, pc, r);
      } else if i.Cmp? || i.Test? || i.TestSet? {
        RunTest(a, env, pc, r);
        SameTest(env, a[pc], pc, r);
        assert InstrRep(code[pc + 1], a[pc + 1], pc + 1);
      } else {
        RunOther(a, env, pc, r);
        if FallsThrough(a[pc]) { RunPlain(a, env, pc, r); }
      }
      pc := pc + 1;
      if i.Jmp? {
        pc := pc + i.j;
      } else if i.LoadBool? && i.skip {
        r := r[i.a := Bool(i.v)];
        pc := pc + 1;
      } else if i.Return? {
        return Some(Results(r, i.a, i.b - 1));
      } else if i.Cmp? || i.Test? || i.TestSet? {
        match TestTaken(env, i, r) {
          case None => return None;
          case Some(taken) =>
            if taken {
              r := TestRegs(i, r);
              pc := pc + code[pc].j;
            }
            pc := pc + 1;
        }
      } else {
        SameExec(env, a[pc - 1], pc - 1, r);
        var res' := ExecuteOne(i, env, r);
        if res'.None? { return None; }
        r := res'.value;
      }
    }
  }

  lemma Starts(a: Code, env: Env, r: Regs)
    requires Ends(RunFrom(a, env, 0, r))
    ensures |a| > 0
  {
  }
}
