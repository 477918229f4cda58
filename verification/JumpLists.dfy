/** Patch lists threaded through the instructions they will patch: each pending jump holds
    the relative position of the next one (lcode.c, the top of the file). */
module JumpLists {
  import opened Common
  import opened Opcodes
  import opened PartialCode
  import opened CodeGen
  import opened ExpMeaning

  type CInstr = Instr<int>

  /** getjump. */
  function GetJump(c: seq<CInstr>, pc: nat): int
    requires pc < |c| && c[pc].Jmp?
  {
    if c[pc].j == NO_JUMP then NO_JUMP else pc + 1 + c[pc].j
  }

  /** The list starting at l has exactly the members s, in that order. */
  ghost predicate Chain(c: seq<CInstr>, l: int, s: seq<nat>)
    decreases |s|
  {
    if s == [] then l == NO_JUMP
    else l == s[0] && s[0] < |c| && c[s[0]].Jmp? && Chain(c, GetJump(c, s[0]), s[1..])
  }

  /** The same instruction as real code; resolved jumps become offsets. */
  function Plain(i: AInstr, pc: nat): CInstr {
    match i
    case Move(a, b) => Move(a, b)
    case LoadK(a, bx) => LoadK(a, bx)
    case LoadBool(a, v, s) => LoadBool(a, v, s)
    case LoadNil(a, b) => LoadNil(a, b)
    case GetUpval(a, b) => GetUpval(a, b)
    case GetGlobal(a, bx) => GetGlobal(a, bx)
    case GetTable(a, b, c) => GetTable(a, b, c)
    case Arith(op, a, b, c) => Arith(op, a, b, c)
    case Unm(a, b) => Unm(a, b)
    case Not(a, b) => Not(a, b)
    case Len(a, b) => Len(a, b)
    case Concat(a, b, c) => Concat(a, b, c)
    case Jmp(Open) => Jmp(NO_JUMP)
    case Jmp(To(t)) => Jmp(t - (pc + 1))
    case Cmp(op, cond, b, c) => Cmp(op, cond, b, c)
    case Test(a, f) => Test(a, f)
    case TestSet(a, b, f) => TestSet(a, b, f)
    case Return(a, b) => Return(a, b)
  }

  /** Real code against symbolic code: equal but for the links held by open jumps. */
  ghost predicate InstrRep(ci: CInstr, ai: AInstr, pc: nat) {
    if ai == Jmp(Open) then ci.Jmp? else ci == Plain(ai, pc)
  }

  ghost predicate CodeRep(c: seq<CInstr>, a: Code) {
    |c| == |a| && forall i: nat :: i < |c| ==> InstrRep(c[i], a[i], i)
  }

  /** Jumps waiting for somebody else keep their links. */
  ghost predicate LinksKept(g: Gen, e: AExp, c: seq<CInstr>, c': seq<CInstr>) {
    forall j: nat :: Outer(g, e, j) && j < |c| ==> j < |c'| && c'[j] == c[j]
  }

  lemma {:induction false} ChainSame(c: seq<CInstr>, c': seq<CInstr>, l: int, s: seq<nat>)
    requires Chain(c, l, s)
    requires forall j :: j in s && j < |c| ==> j < |c'| && c'[j] == c[j]
    ensures Chain(c', l, s)
    decreases |s|
  {
    if s != [] {
      assert s[0] in s && forall j :: j in s[1..] ==> j in s;
      ChainSame(c, c', GetJump(c, s[0]), s[1..]);
    }
  }

  /** What a list's head, members and end look like. */
  lemma {:induction false} ChainAt(c: seq<CInstr>, l: int, s: seq<nat>, i: nat)
    requires Chain(c, l, s) && NoDup(s) && i < |s|
    ensures s[i] < |c| && c[s[i]].Jmp?
    ensures GetJump(c, s[i]) == if i + 1 < |s| then s[i + 1] else NO_JUMP
    decreases |s|
  {
    if i == 0 {
      if |s| > 1 { assert s[1..][0] == s[1]; }
    } else {
      assert NoDup(s[1..]);
      ChainAt(c, GetJump(c, s[0]), s[1..], i - 1);
    }
  }

  /** A list with its last link redirected is the concatenation. */
  lemma {:induction false} ChainAppend(c: seq<CInstr>, c': seq<CInstr>, l1: int, s1: seq<nat>, l2: int, s2: seq<nat>)
    requires Chain(c, l1, s1) && Chain(c, l2, s2) && s1 != [] && s2 != []
    requires NoDup(s1) && Apart(s1, s2) && s1[|s1| - 1] < |c|
    requires c' == c[s1[|s1| - 1] := Jmp(l2 - (s1[|s1| - 1] + 1))]
    ensures Chain(c', l1, s1 + s2)
    decreases |s1|
  {
    var last := s1[|s1| - 1];
    assert last in s1;
    if |s1| == 1 {
      assert s2[0] in s2 && last !in s2;
      ChainSame(c, c', l2, s2);
      assert (s1 + s2)[0] == s1[0] && (s1 + s2)[1..] == s2;
    } else {
      assert s1[0] != last;
      assert NoDup(s1[1..]);
      assert forall j :: j in s1[1..] ==> j in s1;
      ChainAppend(c, c', GetJump(c, s1[0]), s1[1..], l2, s2);
      assert (s1 + s2)[0] == s1[0] && (s1 + s2)[1..] == s1[1..] + s2;
      assert GetJump(c', s1[0]) == GetJump(c, s1[0]);
    }
  }
}
