/** The code generator as the C code runs it: one state updated in place, patch lists
    threaded through the emitted instructions. Each method is proved against the function
    of the same name in CodeGen; `abs` is the state that function works on. */
module LCode {
  import opened Common
  import opened LuaValues
  import opened Opcodes
  import opened PartialCode
  import opened CodeGen
  import opened GenInvariant
  import opened ExpMeaning
  import opened RegisterLoads
  import opened JumpClosing
  import opened Operands
  import opened Conditions
  import opened Negation
  import opened BinaryOperands
  import opened Operators
  import opened GenSteps
  import opened JumpLists

  datatype Error = StructureTooLong | TooComplex | ConstantOverflow | TooManyLevels | UnexpectedSymbol

  /** What a call returns unless it raises an error; `:-` is the C code's longjmp. */
  datatype Result<+T> = Success(value: T) | Failure(error: Error) {
    predicate IsFailure() { Failure? }
    function PropagateFailure<U>(): Result<U>
      requires Failure?
    {
      Failure(error)
    }
    function Extract(): T
      requires Success?
    {
      value
    }
  }

  /** expdesc; t and f are the heads of its patch lists. */
  type CExp = Exp<int>

  ghost predicate ListsRep(c: seq<CInstr>, e: CExp, a: AExp) {
    Chain(c, e.t, a.t) && Chain(c, e.f, a.f)
  }

  /** The jump of a comparison is not linked to any other. */
  ghost predicate ExpRep(c: seq<CInstr>, e: CExp, a: AExp) {
    && e.k == a.k && e.info == a.info && e.aux == a.aux && e.nval == a.nval
    && ListsRep(c, e, a)
    && (a.k.VJMP? ==> Chain(c, e.info, JumpAt(a.info)))
  }

  /** The lists do not depend on the rest of a descriptor. */
  lemma SameLists(c: seq<CInstr>, e: CExp, a: AExp)
    ensures forall e': CExp, a': AExp :: e'.t == e.t && e'.f == e.f && a'.t == a.t && a'.f == a.f ==>
              ListsRep(c, e', a') == ListsRep(c, e, a)
  {
  }

  ghost predicate ConstIndex(k: seq<Value>, h: map<Value, int>) {
    && (forall v :: v in h ==> 0 <= h[v] < |k| && k[h[v]] == v)
    && (forall i :: 0 <= i < |k| ==> k[i] in h && h[k[i]] == i)
  }

  class FuncState {
    var code: seq<CInstr>
    var k: seq<Value>
    var h: map<Value, int>   // where each constant is in k; nil stands for itself
    var jpc: int
    var lasttarget: int
    var freereg: int
    var nactvar: nat
    var maxstacksize: int
    ghost var abs: Gen

    /** open_func, and parlist with n parameters up to the reservation of their registers. */
    constructor (n: nat)
      ensures Rep() && abs == Gen([], [], [], -1, 0, n, 2, true)
    {
      code, k, h, jpc, lasttarget, freereg, nactvar, maxstacksize := [], [], map[], NO_JUMP, -1, 0, n, 2;
      abs := Gen([], [], [], -1, 0, n, 2, true);
    }

    /** The state represents `abs`. */
    ghost predicate Rep()
      reads this
    {
      && CodeRep(code, abs.code) && Chain(code, jpc, abs.jpc)
      && k == abs.consts && ConstIndex(k, h)
      && lasttarget == abs.lasttarget && freereg == abs.freereg && nactvar == abs.nactvar
      && maxstacksize == abs.maxstack && abs.ok
    }

    /** ... and `abs` is between two operations of the generator. */
    ghost predicate Valid()
      reads this
    {
      Rep() && WFGen(abs)
    }

    ghost predicate Holds(e: CExp, a: AExp)
      reads this
    {
      Rep() && ExpRep(code, e, a)
    }

    // ----- jump lists -----

    method FixJump(pc: nat, dest: int) returns (r: Result<()>)
      requires pc < |code| && code[pc].Jmp?
      modifies this`code
      ensures r.Success? <==> InJumpRange(pc, dest)
      ensures r.Success? <==> -131071 <= dest - (pc + 1) <= 131071
      ensures r.Success? ==> code == old(code)[pc := Jmp(dest - (pc + 1))]
      ensures r.Failure? ==> code == old(code)
    {
      var offset := dest - (pc + 1);
      if offset > MAXARG_SBX || -offset > MAXARG_SBX {
        return Failure(StructureTooLong);
      }
      code := code[pc := Jmp(offset)];
      return Success(());
    }

    method GetLabel() returns (pc: int)
      requires Rep()
      modifies this`lasttarget, this`abs
      ensures Rep() && abs == CodeGen.GetLabel(old(abs)) && pc == |code|
    {
      lasttarget := |code|;
      abs := CodeGen.GetLabel(abs);
      return |code|;
    }

    /** luaK_concat. */
    method ConcatList(l1: int, l2: int, ghost s1: seq<nat>, ghost s2: seq<nat>) returns (r: Result<int>)
      requires CodeRep(code, abs.code)
      requires Chain(code, l1, s1) && Chain(code, l2, s2) && NoDup(s1) && Apart(s1, s2)
      requires AllOpen(abs.code, Elems(s1))
      modifies this`code
      ensures r.Success? <==> ConcatOk(s1, s2)
      ensures r.Success? ==> Chain(code, r.value, s1 + s2) && CodeRep(code, abs.code)
      ensures r.Success? ==> |code| == |old(code)| && forall j: nat :: j < |code| && j !in s1 ==>
          code[j] == old(code)[j]
    {
      if l2 == NO_JUMP {
        assert s1 + s2 == s1;
        return Success(l1);
      } else if l1 == NO_JUMP {
        assert s1 + s2 == s2;
        return Success(l2);
      }
      assert s1 != [] && s2 != [];
      var list := l1;
      ghost var i := 0;
      ChainAt(code, l1, s1, 0);
      while GetJump(code, list) != NO_JUMP
        invariant code == old(code)
        invariant 0 <= i < |s1| && list == s1[i]
        invariant list < |code| && code[list].Jmp?
        invariant GetJump(code, list) == if i + 1 < |s1| then s1[i + 1] else NO_JUMP
        decreases |s1| - i
      {
        list := GetJump(code, list);
        i := i + 1;
        ChainAt(code, l1, s1, i);
      }
      assert s1[i] in Elems(s1);
      var _ :- FixJump(list, l2);
      ChainAppend(old(code), code, l1, s1, l2, s2);
      return Success(l1);
    }

    /** getjumpcontrol. */
    function GetJumpControl(pc: nat): (i: nat)
      requires pc < |code|
      reads this
      ensures i < |code|
    {
      if pc >= 1 && IsTest(code[pc - 1]) then pc - 1 else pc
    }

    /** patchtestreg; false if the control is not a TESTSET. */
    method PatchTestReg(node: nat, reg: int) returns (patched: bool)
      requires node < |code| && code[node].Jmp?
      modifies this`code
      ensures patched == (node >= 1 && old(code)[node - 1].TestSet?)
      ensures !patched ==> code == old(code)
      ensures patched ==>
        var i := old(code)[node - 1];
        code == old(code)[node - 1 := if reg != NO_REG && reg != i.b then TestSet(reg, i.b, i.flag)
            else Test(i.b, i.flag)]
    {
      var ctl := GetJumpControl(node);
      var i := code[ctl];
      if !i.TestSet? {
        return false;
      }
      if reg != NO_REG && reg != i.b {
        code := code[ctl := TestSet(reg, i.b, i.flag)];
      } else {
        code := code[ctl := Test(i.b, i.flag)];
      }
      return true;
    }

    /** patchlistaux: every member of the list is sent to its target. */
    method PatchListAux(l: int, vtarget: nat, reg: int, dtarget: nat, ghost s: seq<nat>) returns (r: Result<()>)
      requires CodeRep(code, abs.code) && Chain(code, l, s) && NoDup(s) && AllOpen(abs.code, Elems(s))
      modifies this`code
      ensures r.Success? <==> PatchOk(abs.code, s, vtarget, dtarget)
      ensures r.Success? ==> CodeRep(code, Patch(abs.code, Elems(s), vtarget, reg, dtarget))
      ensures r.Success? ==> JumpsKept(old(code), code, Elems(s))
    {
      hide Patch, PatchInstr, Chain, InJumpRange, CodeRep, PatchOk, JumpsKept;
      ghost var c := abs.code;
      var list := l;
      ghost var i := 0;
      ChainHead(code, l, s);
      PatchNone(c, code, vtarget, reg, dtarget);
      assert s[..0] == [] && Elems(s[..0]) == {};
      while list != NO_JUMP
        invariant 0 <= i <= |s|
        invariant list == if i < |s| then s[i] else NO_JUMP
        invariant CodeRep(code, Patch(c, Elems(s[..i]), vtarget, reg, dtarget))
        invariant PatchOk(c, s[..i], vtarget, dtarget)
        invariant JumpsKept(old(code), code, Elems(s[..i]))
        decreases |s| - i
      {
        ChainAt(old(code), l, s, i);
        PatchOneMore(c, s, i, vtarget, reg, dtarget, old(code), code);
        PatchOkOneMore(c, s, i, vtarget, dtarget);
        var next := GetJump(code, list);
        var patched := PatchTestReg(list, reg);
        var _ :- FixJump(list, if patched then vtarget else dtarget);
        list := next;
        i := i + 1;
      }
      assert s[..i] == s;
      return Success(());
    }

    method DischargeJpc() returns (r: Result<()>)
      requires Rep() && NoDup(abs.jpc) && AllOpen(abs.code, Elems(abs.jpc))
      modifies this
      ensures r.Success? <==> CodeGen.DischargeJpc(old(abs)).ok
      ensures r.Success? ==>
          Rep() && abs == CodeGen.DischargeJpc(old(abs)) && JumpsKept(old(code), code, Elems(old(abs).jpc))
    {
      var _ :- PatchListAux(jpc, |code|, NO_REG, |code|, abs.jpc);
      jpc := NO_JUMP;
      abs := CodeGen.DischargeJpc(abs);
      return Success(());
    }

    /** luaK_code. */
    method Code(i: CInstr, ghost ai: AInstr) returns (r: Result<nat>)
      requires Rep() && NoDup(abs.jpc) && AllOpen(abs.code, Elems(abs.jpc))
      requires i == Plain(ai, |code|)
      modifies this
      ensures r.Success? <==> Emit(old(abs), ai).ok
      ensures r.Success? ==> Rep() && abs == Emit(old(abs), ai) && r.value == |old(code)| == |old(abs).code|
      ensures r.Success? ==>
          JumpsKept(old(code), code, Elems(old(abs).jpc)) && |code| == |old(code)| + 1 && code[r.value] == i
    {
      hide PatchInstr, PatchOk, InstrRep;
      var _ :- DischargeJpc();
      RepAppend(code, abs.code, i, ai);
      code := code + [i];
      abs := abs.(code := abs.code + [ai]);
      return Success(|code| - 1);
    }

    /** luaK_jump. */
    method Jump() returns (r: Result<int>)
      requires Rep() && NoDup(abs.jpc) && AllOpen(abs.code, Elems(abs.jpc))
      modifies this
      ensures r.Success? <==> CodeGen.Jump(old(abs)).0.ok
      ensures r.Success? ==> Rep() && abs == CodeGen.Jump(old(abs)).0 && Chain(code, r.value, CodeGen.Jump(old(abs)).1)
      ensures r.Success? ==> JumpsKept(old(code), code, {}) && |code| == |old(code)| + 1
    {
      var pending := jpc;
      ghost var pendingList := abs.jpc;
      jpc := NO_JUMP;
      abs := abs.(jpc := []);
      assert Elems(abs.jpc) == {};
      var emitted := Code(Jmp(NO_JUMP), Jmp(Open));
      var j := emitted.value;
      JumpStart(code, j, pendingList, old(code), pending);
      assert abs.code[j] == Jmp(Open);
      var l :- ConcatList(j, pending, [j], pendingList);
      NoChain(code, jpc);
      return Success(l);
    }

    /** condjump. */
    method CondJump(i: CInstr, ghost ai: AInstr) returns (r: Result<int>)
      requires Valid() && IsTest(ai) && i == Plain(ai, |code|)
      modifies this
      ensures r.Success? <==> CodeGen.CondJump(old(abs), ai).0.ok
      ensures r.Success? ==>
          Rep() && abs == CodeGen.CondJump(old(abs), ai).0 && Chain(code, r.value, CodeGen.CondJump(old(abs), ai).1)
      ensures r.Success? ==> JumpsKept(old(code), code, Elems(old(abs).jpc))
    {
      hide Patch, PatchOk, CodeRep, WFCode;
      var _ :- Code(i, ai);
      r := Jump();
    }

    /** luaK_patchtohere. */
    method PatchToHere(list: int, ghost s: seq<nat>) returns (r: Result<()>)
      requires Rep() && NoDup(abs.jpc) && AllOpen(abs.code, Elems(abs.jpc))
      requires Chain(code, list, s) && Apart(abs.jpc, s)
      modifies this
      ensures r.Success? <==> CodeGen.PatchToHere(old(abs), s).ok
      ensures r.Success? ==> Rep() && abs == CodeGen.PatchToHere(old(abs), s) && |code| == |old(code)|
      ensures r.Success? ==> JumpsKept(old(code), code, Elems(old(abs).jpc))
    {
      hide CodeRep, Chain;
      var _ := GetLabel();
      jpc :- ConcatList(jpc, list, abs.jpc, s);
      abs := abs.(jpc := abs.jpc + s);
      return Success(());
    }

    /** need_value. */
    method NeedValue(l: int, ghost s: seq<nat>) returns (b: bool)
      requires CodeRep(code, abs.code) && Chain(code, l, s) && NoDup(s) && AllOpen(abs.code, Elems(s))
      ensures b == CodeGen.NeedValue(abs.code, s)
    {
      var list := l;
      ghost var i := 0;
      ChainHead(code, l, s);
      while list != NO_JUMP
        invariant 0 <= i <= |s| && list == if i < |s| then s[i] else NO_JUMP
        invariant forall m :: 0 <= m < i ==> s[m] < |abs.code| && ByTestSet(abs.code, s[m])
        decreases |s| - i
      {
        ChainAt(code, l, s, i);
        assert s[i] in Elems(s);
        ControlRep(code, abs.code, s[i]);
        if !code[GetJumpControl(list)].TestSet? {
          assert s[i] in s && !ByTestSet(abs.code, s[i]);
          return true;
        }
        list := GetJump(code, list);
        i := i + 1;
      }
      return false;
    }

    /** removevalues. */
    method RemoveValues(l: int, ghost s: seq<nat>)
      requires Rep() && Chain(code, l, s) && NoDup(s) && AllOpen(abs.code, Elems(s)) && NoDup(abs.jpc)
      modifies this`code, this`abs
      ensures Rep() && abs == CodeGen.RemoveValues(old(abs), s) && JumpsKept(old(code), code, {})
    {
      hide Chain, CodeRep, Retest;
      ghost var c := abs.code;
      var list := l;
      ghost var i := 0;
      ChainHead(code, l, s);
      RetestNone(c);
      assert s[..0] == [] && Elems(s[..0]) == {};
      while list != NO_JUMP
        invariant 0 <= i <= |s| && list == if i < |s| then s[i] else NO_JUMP
        invariant CodeRep(code, Retest(c, Elems(s[..i])))
        invariant JumpsKept(old(code), code, {})
        modifies this`code
        decreases |s| - i
      {
        ChainAt(old(code), l, s, i);
        RetestOneMore(c, s, i, code);
        assert code[list] == old(code)[list];
        var _ := PatchTestReg(list, NO_REG);
        list := GetJump(code, list);
        i := i + 1;
      }
      assert s[..i] == s;
      abs := CodeGen.RemoveValues(abs, s);
      JumpsSame(old(code), {}, code, jpc, abs.jpc);
    }

    // ----- registers and constants -----

    /** luaK_checkstack. */
    method CheckStack(n: int) returns (r: Result<()>)
      requires Rep()
      modifies this`maxstacksize, this`abs
      ensures r.Success? <==> CodeGen.CheckStack(old(abs), n).ok
      ensures r.Success? <==> old(freereg) + n <= old(maxstacksize) || old(freereg) + n < 250
      ensures r.Success? ==> Rep() && abs == CodeGen.CheckStack(old(abs), n)
    {
      var newstack := freereg + n;
      if newstack > maxstacksize {
        if newstack >= MAXSTACK {
          return Failure(TooComplex);
        }
        maxstacksize := newstack;
      }
      abs := CodeGen.CheckStack(abs, n);
      return Success(());
    }

    /** luaK_reserveregs. */
    method ReserveRegs(n: int) returns (r: Result<()>)
      requires Rep()
      modifies this`maxstacksize, this`freereg, this`abs
      ensures r.Success? <==> CodeGen.ReserveRegs(old(abs), n).ok
      ensures r.Success? ==> Rep() && abs == CodeGen.ReserveRegs(old(abs), n)
    {
      var _ :- CheckStack(n);
      freereg := freereg + n;
      abs := abs.(freereg := freereg);
      return Success(());
    }

    /** freereg; only the topmost register is ever freed. */
    method FreeReg(reg: int)
      requires Rep() && (IsTemp(abs, reg) ==> reg == abs.freereg - 1)
      modifies this`freereg, this`abs
      ensures Rep() && abs == CodeGen.FreeReg(old(abs), reg)
    {
      if !IsK(reg) && reg >= nactvar {
        freereg := freereg - 1;
      }
      abs := CodeGen.FreeReg(abs, reg);
    }

    /** freeexp. */
    method FreeExp(e: CExp, ghost a: AExp)
      requires Rep() && e.k == a.k && e.info == a.info
          && (a.k.VNONRELOC? && IsTemp(abs, a.info) ==> a.info == abs.freereg - 1)
      modifies this`freereg, this`abs
      ensures Rep() && abs == CodeGen.FreeExp(old(abs), a)
    {
      if e.k.VNONRELOC? {
        FreeReg(e.info);
      }
    }

    /** addk. */
    method AddK(v: Value) returns (r: Result<int>)
      requires Rep()
      modifies this`k, this`h, this`abs
      ensures r.Success? <==> CodeGen.AddK(old(abs), v).0.ok
      ensures r.Success? <==> v in old(h) || |old(k)| < 262143
      ensures r.Success? ==> Rep() && abs == CodeGen.AddK(old(abs), v).0 && r.value == CodeGen.AddK(old(abs), v).1
    {
      if v in h {
        return Success(h[v]);
      }
      if |k| >= MAXARG_BX {
        return Failure(ConstantOverflow);
      }
      h := h[v := |k|];
      k := k + [v];
      abs := CodeGen.AddK(abs, v).0;
      return Success(|k| - 1);
    }

    /** luaK_nil. */
    method Nil(from: int, n: int) returns (r: Result<()>)
      requires Valid() && n >= 1
      modifies this
      ensures r.Success? <==> LuaKNil(old(abs), from, n).ok
      ensures r.Success? ==>
          Rep() && abs == LuaKNil(old(abs), from, n) && JumpsKept(old(code), code, Elems(old(abs).jpc))
    {
      hide Patch, PatchOk, WFCode, Chain, ConstIndex;
      if |code| > lasttarget {
        assert abs.jpc == [];
        if |code| == 0 {
          if from >= nactvar {
            return Success(());
          }
        } else {
          var previous := code[|code| - 1];
          assert InstrRep(previous, abs.code[|code| - 1], |code| - 1);
          if previous.LoadNil? {
            if previous.a <= from <= previous.b + 1 {
              if from + n - 1 > previous.b {
                NoChain(code, jpc);
                code := code[|code| - 1 := LoadNil(previous.a, from + n - 1)];
                NoChain(code, jpc);
                abs := LuaKNil(abs, from, n);
              }
              return Success(());
            }
          }
        }
      }
      var _ :- Code(LoadNil(from, from + n - 1), LoadNil(from, from + n - 1));
      return Success(());
    }

    // ----- expressions to registers -----

    /** luaK_dischargevars. */
    method DischargeVars(e: CExp, ghost a: AExp, ghost fr: int) returns (r: Result<CExp>)
      requires Holds(e, a) && WFGen(abs) && ListsOk(abs, a) && Held(abs, a, fr)
      modifies this
      ensures r.Success? <==> CodeGen.DischargeVars(old(abs), a).0.ok
      ensures r.Success? ==>
          abs == CodeGen.DischargeVars(old(abs), a).0 && Holds(r.value, CodeGen.DischargeVars(old(abs), a).1)
      ensures r.Success? ==> LinksKept(old(abs), a, old(code), code)
    {
      hide Emit, Chain, CodeRep, ListsOk, WFCode, TargetsLabelled, LinksKept, ListsRep;
      SameLists(code, e, a);
      match e.k {
        case VLOCAL =>
          LinksRefl(abs, a, code);
          return Success(e.(k := VNONRELOC));
        case VUPVAL =>
          var pc :- Code(GetUpval(0, e.info), GetUpval(0, a.info));
          ListsStay(old(abs), a, old(code), code, e);
          SameLists(code, e, a);
          return Success(e.(info := pc, k := VRELOCABLE));
        case VGLOBAL =>
          var pc :- Code(GetGlobal(0, e.info), GetGlobal(0, a.info));
          ListsStay(old(abs), a, old(code), code, e);
          SameLists(code, e, a);
          return Success(e.(info := pc, k := VRELOCABLE));
        case VINDEXED =>
          FreeReg(e.aux);
          FreeReg(e.info);
          var pc :- Code(GetTable(0, e.info, e.aux), GetTable(0, a.info, a.aux));
          ListsStay(old(abs), a, old(code), code, e);
          SameLists(code, e, a);
          return Success(e.(info := pc, k := VRELOCABLE));
        case _ =>
          LinksRefl(abs, a, code);
          return Success(e);
      }
    }

    /** discharge2reg, once variables are discharged. */
    method Discharge2Reg(e: CExp, reg: int, ghost ops: Ops, ghost a: AExp, ghost fr: int) returns (r: Result<CExp>)
      requires Holds(e, a) && Shape(ops, abs, a, fr) && !IsVar(a.k)
      modifies this
      ensures r.Success? <==> CodeGen.Discharge2Reg(old(abs), a, reg).0.ok
      ensures r.Success? ==>
        abs == CodeGen.Discharge2Reg(old(abs), a, reg).0 && Holds(r.value, CodeGen.Discharge2Reg(old(abs), a, reg).1)
      ensures r.Success? ==> LinksKept(old(abs), a, old(code), code)
    {
      hide Emit, LuaKNil, Chain, CodeRep, ListsOk, WFCode, TargetsLabelled, LinksKept, CodeGen.AddK, ListsRep,
          JumpsKept;
      match e.k {
        case VNIL => var _ :- Nil(reg, 1);
        case VFALSE => var _ :- Code(LoadBool(reg, false, false), LoadBool(reg, false, false));
        case VTRUE => var _ :- Code(LoadBool(reg, true, false), LoadBool(reg, true, false));
        case VK => var _ :- Code(LoadK(reg, e.info), LoadK(reg, e.info));
        case VKNUM =>
          AddKOnly(abs, Number(e.nval));
          var i :- AddK(Number(e.nval));
          var _ :- Code(LoadK(reg, i), LoadK(reg, i));
        case VRELOCABLE =>
          RelocRep(code, abs.code, e.info, reg);
          code := code[e.info := SetA(code[e.info], reg)];
          abs := Relocate(abs, e.info, reg);
          JumpsSame(old(code), {}, code, jpc, abs.jpc);
        case VNONRELOC =>
          if reg != e.info {
            var _ :- Code(Move(reg, e.info), Move(reg, e.info));
          }
        case _ =>
          LinksRefl(abs, a, code);
          return Success(e);
      }
      ListsStay(old(abs), a, old(code), code, e);
      SameLists(code, e, a);
      return Success(e.(info := reg, k := VNONRELOC));
    }

    /** discharge2anyreg. */
    method Discharge2AnyReg(e: CExp, ghost ops: Ops, ghost a: AExp, ghost fr: int) returns (r: Result<CExp>)
      requires Holds(e, a) && Inv(ops, abs, a, fr) && !IsVar(a.k)
      modifies this
      ensures r.Success? <==> CodeGen.Discharge2AnyReg(old(abs), a).0.ok
      ensures r.Success? ==>
        abs == CodeGen.Discharge2AnyReg(old(abs), a).0 && Holds(r.value, CodeGen.Discharge2AnyReg(old(abs), a).1)
      ensures r.Success? ==> LinksKept(old(abs), a, old(code), code)
    {
      hide CodeGen.Discharge2Reg, Chain, CodeRep, Inv, Shape, LinksKept, Frame, CodeGen.ReserveRegs;
      if e.k.VNONRELOC? {
        LinksRefl(abs, a, code);
        return Success(e);
      }
      ghost var g0 := abs;
      var _ :- ReserveRegs(1);
      ReservedShape(ops, g0, a, fr);
      ghost var g1 := abs;
      ghost var c1 := code;
      r := Discharge2Reg(e, freereg - 1, ops, a, fr);
      if r.Success? {
        LinksRefl(g0, a, c1);
        LinksTrans(g0, a, c1, g1, a, c1, code);
      }
    }

    /** code_label. */
    method CodeLabel(reg: int, b: bool, skip: bool) returns (r: Result<nat>)
      requires Rep() && NoDup(abs.jpc) && AllOpen(abs.code, Elems(abs.jpc))
      modifies this
      ensures r.Success? <==> CodeGen.CodeLabel(old(abs), reg, b, skip).ok
      ensures r.Success? ==>
          Rep() && abs == CodeGen.CodeLabel(old(abs), reg, b, skip) && r.value == |code| - 1 == |old(code)|
      ensures r.Success? ==> JumpsKept(old(code), code, Elems(old(abs).jpc))
    {
      hide Emit, Chain, CodeRep;
      var _ := GetLabel();
      r := Code(LoadBool(reg, b, skip), LoadBool(reg, b, skip));
    }

    /** The middle of exp2reg: loads for the values that no TESTSET provides. */
    method WithLoads(fallsIn: bool, reg: int) returns (r: Result<(nat, nat)>)
      requires Valid() && (fallsIn ==> abs.jpc == [])
      modifies this
      ensures r.Success? <==> CodeGen.WithLoads(old(abs), fallsIn, reg).ok
      ensures r.Success? ==> Rep() && abs == CodeGen.WithLoads(old(abs), fallsIn, reg) && |code| >= 2
      ensures r.Success? ==> r.value == (|code| - 2, |code| - 1)
      ensures r.Success? ==> JumpsKept(old(code), code, Elems(old(abs).jpc))
    {
      hide Chain, CodeRep, WFCode, CodeGen.CodeLabel, CodeGen.Jump, JumpsKept;
      var fj := NO_JUMP;
      ghost var s: seq<nat> := [];
      NoChain(code, NO_JUMP);
      JumpsRefl(code);
      if !fallsIn {
        JumpList(abs);
        fj :- Jump();
        s := CodeGen.Jump(old(abs)).1;
      }
      ghost var c1 := code;
      assert Elems(abs.jpc) == {};
      CodeLabelShape(abs, reg, false, true);
      var pF := CodeLabel(reg, false, true);
      ghost var c2 := code;
      CodeLabelShape(abs, reg, true, false);
      var pT := CodeLabel(reg, true, false);
      JumpsTrans(c1, {}, c2, code);
      JumpsSame(c1, {}, code, fj, s);
      JumpsTrans(old(code), Elems(old(abs).jpc), c1, code);
      ghost var c3 := code;
      var here := PatchToHere(fj, s);
      JumpsTrans(old(code), Elems(old(abs).jpc), c3, code);
      var _ := GetLabel();
      return Success((pF.value, pT.value));
    }

    /** The two calls of patchlistaux at the end of exp2reg. */
    method PatchBoth(e: CExp, final: nat, reg: int, pF: nat, pT: nat, ghost a: AExp) returns (r: Result<()>)
      requires Rep() && ListsRep(code, e, a) && ListsOk(abs, a) && NoDup(abs.jpc)
      modifies this
      ensures r.Success? <==> CodeGen.PatchBoth(old(abs), a, final, reg, pF, pT).ok
      ensures r.Success? ==> Rep() && abs == CodeGen.PatchBoth(old(abs), a, final, reg, pF, pT)
      ensures r.Success? ==> JumpsKept(old(code), code, Elems(a.t) + Elems(a.f))
    {
      hide Chain, CodeRep, Patch, PatchOk;
      ghost var g0, c0 := abs, code;
      assert Elems(a.t) !! Elems(a.f) && Elems(abs.jpc) !! Elems(a.f) && Elems(abs.jpc) !! Elems(a.t);
      var _ :- PatchListAux(e.f, final, reg, pF, a.f);
      JumpsSame(c0, Elems(a.f), code, e.t, a.t);
      JumpsSame(c0, Elems(a.f), code, jpc, abs.jpc);
      PatchKeepsOpen(g0.code, Elems(a.f), final, reg, pF, Elems(a.t));
      abs := CodeGen.PatchListAux(abs, a.f, final, reg, pF);
      ghost var c1 := code;
      var _ :- PatchListAux(e.t, final, reg, pT, a.t);
      JumpsSame(c1, Elems(a.t), code, jpc, abs.jpc);
      abs := CodeGen.PatchListAux(abs, a.t, final, reg, pT);
      return Success(());
    }

    /** The end of exp2reg: every jump of the two lists gets its destination. When no jump
        needs a value loaded, the default destination is not used. */
    method CloseJumps(e: CExp, reg: int, ghost a: AExp) returns (r: Result<()>)
      requires Valid() && ListsRep(code, e, a) && ListsOk(abs, a) && e.k == a.k && (a.k.VJMP? ==> abs.jpc == [])
      requires 0 <= reg < MAXSTACK
      modifies this
      ensures r.Success? <==> CodeGen.CloseJumps(old(abs), a, reg).ok
      ensures r.Success? ==> Rep() && abs == CodeGen.CloseJumps(old(abs), a, reg)
      ensures r.Success? ==> JumpsKept(old(code), code, Elems(old(abs).jpc) + Elems(a.t) + Elems(a.f))
    {
      hide Chain, WFCode, CodeGen.WithLoads, CodeGen.NeedValue, JumpsKept, CodeGen.PatchBoth, AllOpen, TargetsLabelled,
          ListsOk, ListsRep, CodeRep;
      ghost var g0, c0 := abs, code;
      ListsParts(abs, a, code, e);
      var needT := NeedValue(e.t, a.t);
      var needF := NeedValue(e.f, a.f);
      if needT || needF {
        var loads :- WithLoads(e.k.VJMP?, reg);
        LoadsLists(g0, a, reg);
        SameLength(code, abs.code);
        ListsStay(g0, a, c0, code, e);
        ghost var c1 := code;
        var _ :- PatchBoth(e, |code|, reg, loads.0, loads.1, a);
        JumpsUnion(c0, Elems(g0.jpc), c1, Elems(a.t) + Elems(a.f), code);
      } else {
        var final := GetLabel();
        LabelLists(g0, a);
        SameLength(code, abs.code);
        var _ :- PatchBoth(e, final, reg, final, final, a);
        JumpsRefl(c0);
        JumpsUnion(c0, Elems(g0.jpc), c0, Elems(a.t) + Elems(a.f), code);
      }
      assert Elems(g0.jpc) + (Elems(a.t) + Elems(a.f)) == Elems(g0.jpc) + Elems(a.t) + Elems(a.f);
      return Success(());
    }

    /** exp2reg. */
    method Exp2Reg(e: CExp, reg: int, ghost ops: Ops, ghost a: AExp, ghost fr: int) returns (r: Result<CExp>)
      requires Holds(e, a) && Shape(ops, abs, a, fr) && !IsVar(a.k) && 0 <= reg < MAXSTACK
      modifies this
      ensures r.Success? <==> CodeGen.Exp2Reg(old(abs), a, reg).0.ok
      ensures r.Success? ==>
        abs == CodeGen.Exp2Reg(old(abs), a, reg).0 && Holds(r.value, CodeGen.Exp2Reg(old(abs), a, reg).1)
      ensures r.Success? ==> LinksKept(old(abs), a, old(code), code)
    {
      hide CodeGen.Discharge2Reg, CodeGen.CloseJumps, CodeRep, LinksKept, Frame, ListsOk, WFGen, JumpsKept, Shape,
          ListsRep;
      ghost var g0, c0 := abs, code;
      var e1 :- Discharge2Reg(e, reg, ops, a, fr);
      Discharge2RegKeeps(ops, g0, a, reg, fr);
      ghost var a1 := CodeGen.Discharge2Reg(g0, a, reg).1;
      ghost var g1, c1 := abs, code;
      ghost var a2 := OwnJump(a1);
      OwnJumpFacts(ops, g1, a1, reg, fr, c1, e1);
      if e1.k.VJMP? {
        var t :- ConcatList(e1.t, e1.info, a1.t, JumpAt(a1.info));
        OwnConcat(ops, g1, a1, fr, c1, code, e1, t);
        e1 := e1.(t := t);
      } else {
        JumpsRefl(code);
        assert a1.t + [] == a1.t;
      }
      ghost var c2 := code;
      ListHeads(code, e1, a2);
      if e1.t != NO_JUMP || e1.f != NO_JUMP {
        var _ :- CloseJumps(e1, reg, a2);
      } else {
        JumpsRefl(code);
      }
      OwnLinks(g1, a1, c1, c2, code);
      LinksTrans(g0, a, c0, g1, a1, c1, code);
      var e2 := e1.(f := NO_JUMP, t := NO_JUMP, info := reg, k := VNONRELOC);
      NoChains(code, e2, a2.(f := [], t := [], info := reg, k := VNONRELOC));
      return Success(e2);
    }

    /** luaK_exp2nextreg. */
    method Exp2NextReg(e: CExp, ghost ops: Ops, ghost a: AExp, ghost fr: int) returns (r: Result<CExp>)
      requires Holds(e, a) && Inv(ops, abs, a, fr)
      modifies this
      ensures r.Success? <==> CodeGen.Exp2NextReg(old(abs), a).0.ok
      ensures r.Success? ==>
          abs == CodeGen.Exp2NextReg(old(abs), a).0 && Holds(r.value, CodeGen.Exp2NextReg(old(abs), a).1)
      ensures r.Success? ==> LinksKept(old(abs), a, old(code), code)
    {
      hide CodeGen.DischargeVars, CodeGen.Exp2Reg, CodeRep, ListsRep, Chain, LinksKept, Frame, ListsOk, WFGen, Inv,
          Shape, CodeGen.ReserveRegs, CodeGen.FreeExp;
      ghost var g0, c0 := abs, code;
      InvParts(ops, abs, a, fr);
      var e1 :- DischargeVars(e, a, fr);
      DischargeVarsKeeps(ops, g0, a, fr);
      ghost var g1, a1, c1 := abs, CodeGen.DischargeVars(g0, a).1, code;
      TopReg(ops, g1, a1, fr);
      FreeExp(e1, a1);
      var _ :- ReserveRegs(1);
      NextRegShape(ops, g1, a1, fr);
      ghost var g2 := abs;
      r := Exp2Reg(e1, freereg - 1, ops, a1, fr);
      if r.Success? {
        LinksRefl(g1, a1, c1);
        LinksTrans(g1, a1, c1, g2, a1, c1, code);
        LinksTrans(g0, a, c0, g1, a1, c1, code);
      }
    }

    /** luaK_exp2anyreg. */
    method Exp2AnyReg(e: CExp, ghost ops: Ops, ghost a: AExp, ghost fr: int) returns (r: Result<CExp>)
      requires Holds(e, a) && Inv(ops, abs, a, fr)
      modifies this
      ensures r.Success? <==> CodeGen.Exp2AnyReg(old(abs), a).0.ok
      ensures r.Success? ==>
          abs == CodeGen.Exp2AnyReg(old(abs), a).0 && Holds(r.value, CodeGen.Exp2AnyReg(old(abs), a).1)
      ensures r.Success? ==> LinksKept(old(abs), a, old(code), code)
    {
      hide CodeGen.DischargeVars, CodeGen.Exp2Reg, CodeGen.Exp2NextReg, CodeRep, ListsRep, Chain, LinksKept, Frame,
          ListsOk, WFGen, Inv, Shape;
      ghost var g0, c0 := abs, code;
      InvParts(ops, abs, a, fr);
      var e1 :- DischargeVars(e, a, fr);
      DischargeVarsKeeps(ops, g0, a, fr);
      ghost var g1, a1, c1 := abs, CodeGen.DischargeVars(g0, a).1, code;
      ListHeads(code, e1, a1);
      if e1.k.VNONRELOC? {
        if e1.t == NO_JUMP && e1.f == NO_JUMP {
          return Success(e1);
        }
        if e1.info >= nactvar {
          InvShape(ops, g1, a1, fr);
          RegBounds(ops, g1, a1, fr);
          r := Exp2Reg(e1, e1.info, ops, a1, fr);
          if r.Success? { LinksTrans(g0, a, c0, g1, a1, c1, code); }
          return;
        }
      }
      DischargedAgain(g1, a1);
      r := Exp2NextReg(e1, ops, a1, fr);
      if r.Success? { LinksTrans(g0, a, c0, g1, a1, c1, code); }
    }

    /** luaK_exp2val. */
    method Exp2Val(e: CExp, ghost ops: Ops, ghost a: AExp, ghost fr: int) returns (r: Result<CExp>)
      requires Holds(e, a) && Inv(ops, abs, a, fr)
      modifies this
      ensures r.Success? <==> CodeGen.Exp2Val(old(abs), a).0.ok
      ensures r.Success? ==> abs == CodeGen.Exp2Val(old(abs), a).0 && Holds(r.value, CodeGen.Exp2Val(old(abs), a).1)
      ensures r.Success? ==> LinksKept(old(abs), a, old(code), code)
    {
      hide CodeGen.DischargeVars, CodeGen.Exp2AnyReg, CodeRep, ListsRep, Chain, LinksKept, ListsOk, WFGen, Inv;
      ListHeads(code, e, a);
      InvParts(ops, abs, a, fr);
      if e.t != NO_JUMP || e.f != NO_JUMP {
        r := Exp2AnyReg(e, ops, a, fr);
      } else {
        r := DischargeVars(e, a, fr);
      }
    }

    /** luaK_exp2RK: the descriptor and the operand. */
    method Exp2RK(e: CExp, ghost ops: Ops, ghost a: AExp, ghost fr: int) returns (r: Result<(CExp, int)>)
      requires Holds(e, a) && Inv(ops, abs, a, fr)
      modifies this
      ensures r.Success? <==> CodeGen.Exp2RK(old(abs), a).0.ok
      ensures r.Success? ==>
        var (g', a', rk) := CodeGen.Exp2RK(old(abs), a);
        abs == g' && Holds(r.value.0, a') && r.value.1 == rk
      ensures r.Success? ==> LinksKept(old(abs), a, old(code), code)
    {
      hide CodeGen.Exp2Val, CodeGen.Exp2AnyReg, CodeGen.AddK, CodeRep, ListsRep, Chain, LinksKept, ListsOk, WFGen, Inv,
          Frame;
      ghost var g0, c0 := abs, code;
      var e1 :- Exp2Val(e, ops, a, fr);
      Exp2ValKeeps(ops, g0, a, fr);
      ghost var g1, a1, c1 := abs, CodeGen.Exp2Val(g0, a).1, code;
      SameLists(code, e1, a1);
      match e1.k {
        case VKNUM | VTRUE | VFALSE | VNIL =>
          if |k| <= MAXINDEXRK {
            var v := if e1.k.VNIL? then Value.Nil else if e1.k.VKNUM? then Number(e1.nval) else Bool(e1.k.VTRUE?);
            SmallK(abs, v);
            AddKOnly(abs, v);
            var added := AddK(v);
            return Success((e1.(info := added.value, k := VK), RkAsK(added.value)));
          }
        case VK =>
          if e1.info <= MAXINDEXRK {
            return Success((e1, RkAsK(e1.info)));
          }
        case _ =>
      }
      var e2 :- Exp2AnyReg(e1, ops, a1, fr);
      LinksTrans(g0, a, c0, g1, a1, c1, code);
      return Success((e2, e2.info));
    }

    // ----- conditions -----

    /** invertjump. */
    method InvertJump(pc: nat)
      requires Rep() && NoDup(abs.jpc)
      requires 1 <= pc < |code| && abs.code[pc] == Jmp(Open) && abs.code[pc - 1].Cmp?
      modifies this`code, this`abs
      ensures Rep() && abs == CodeGen.InvertJump(old(abs), pc) && JumpsKept(old(code), code, {})
    {
      hide Chain;
      ControlRep(code, abs.code, pc);
      assert InstrRep(code[pc - 1], abs.code[pc - 1], pc - 1);
      var ctl := GetJumpControl(pc);
      var i := code[ctl];
      code := code[ctl := Cmp(i.cop, !i.cond, i.b, i.c)];
      abs := CodeGen.InvertJump(abs, pc);
      JumpsSame(old(code), {}, code, jpc, abs.jpc);
    }

    /** The end of jumponcond: a TESTSET of the register that holds the value. */
    method TestSetJump(e: CExp, cond: bool, ghost ops: Ops, ghost a: AExp, ghost fr: int) returns (r: Result<int>)
      requires Holds(e, a) && Inv(ops, abs, a, fr) && !IsVar(a.k) && !a.k.VJMP?
      modifies this
      ensures r.Success? <==> TestSetExit(old(abs), a, cond).0.ok
      ensures r.Success? ==>
        && Rep() && abs == TestSetExit(old(abs), a, cond).0
        && Chain(code, r.value, TestSetExit(old(abs), a, cond).1) && ListsRep(code, e, a)
      ensures r.Success? ==> LinksKept(old(abs), a, old(code), code)
    {
      hide CodeGen.CondJump, CodeGen.Discharge2AnyReg, Chain, ListsRep, LinksKept, ListsOk, Frame, CodeRep, WFGen, Inv,
          JumpsKept, CodeGen.FreeExp, Elems;
      ghost var g0, c0 := abs, code;
      var e1 :- Discharge2AnyReg(e, ops, a, fr);
      Discharge2AnyRegKeeps(ops, g0, a, fr);
      ghost var g1, a1, c1 := abs, CodeGen.Discharge2AnyReg(g0, a).1, code;
      FreedState(ops, g1, a1, fr);
      FreeExp(e1, a1);
      ghost var g2 := abs;
      SameHeads(c0, e, a, code, e1, a1);
      LinksRefl(g1, a1, c1);
      LinksTrans(g0, a, c0, g1, a1, c1, code);
      r := CondJump(TestSet(NO_REG, e1.info, cond), TestSet(NO_REG, e1.info, cond));
      if r.Success? {
        ListsStay(g2, a1, c1, code, e1);
        LinksTrans(g1, a1, c1, g2, a1, c1, code);
        LinksTrans(g0, a, c0, g1, a1, c1, code);
        SameHeads(c1, e, a, code, e1, a1);
      }
    }

    /** jumponcond. */
    method JumpOnCond(e: CExp, cond: bool, ghost ops: Ops, ghost a: AExp, ghost fr: int) returns (r: Result<int>)
      requires Holds(e, a) && Inv(ops, abs, a, fr) && !IsVar(a.k) && !a.k.VJMP?
      modifies this
      ensures r.Success? <==> CodeGen.JumpOnCond(old(abs), a, cond).0.ok
      ensures r.Success? ==>
        && Rep() && abs == CodeGen.JumpOnCond(old(abs), a, cond).0
        && Chain(code, r.value, CodeGen.JumpOnCond(old(abs), a, cond).1) && ListsRep(code, e, a)
      ensures r.Success? ==> LinksKept(old(abs), a, old(code), code)
    {
      hide CodeGen.CondJump, CodeGen.Discharge2AnyReg, Chain, ListsRep, LinksKept, ListsOk, Frame, CodeRep, WFGen, Inv,
          JumpsKept, CodeGen.FreeExp, Elems;
      ghost var g0, c0 := abs, code;
      InvParts(ops, abs, a, fr);
      if e.k.VRELOCABLE? {
        LastInstr(ops, abs, a, fr, code);
        var ie := code[e.info];
        if ie.Not? {
          DropNot(ops, abs, a, fr, code, e);
          code := code[..|code| - 1];
          abs := abs.(code := abs.code[..a.info]);
          NoChain(old(code), jpc);
          NoChain(code, jpc);
          SameLength(code, abs.code);
          ghost var g1, c1 := abs, code;
          r := CondJump(Test(ie.b, !cond), Test(ie.b, !cond));
          if r.Success? {
            ListsStay(g1, a, c1, code, e);
            LinksTrans(g0, a, c0, g1, a, c1, code);
          }
          return;
        }
      }
      r := TestSetJump(e, cond, ops, a, fr);
    }

    /** The switch of luaK_goiftrue (pass) and luaK_goiffalse. */
    method ExitJump(e: CExp, pass: bool, ghost ops: Ops, ghost a: AExp, ghost fr: int) returns (r: Result<int>)
      requires Holds(e, a) && Inv(ops, abs, a, fr) && !IsVar(a.k)
      modifies this
      ensures r.Success? <==> Conditions.ExitJump(old(abs), a, pass).0.ok
      ensures r.Success? ==>
        && Rep() && abs == Conditions.ExitJump(old(abs), a, pass).0
        && Chain(code, r.value, Conditions.ExitJump(old(abs), a, pass).1) && ListsRep(code, e, a)
      ensures r.Success? ==> LinksKept(old(abs), a, old(code), code)
    {
      hide CodeGen.JumpOnCond, ListsRep, LinksKept, ListsOk, CodeRep, WFGen, CodeGen.InvertJump, Inv, JumpsKept;
      ghost var c0 := code;
      InvParts(ops, abs, a, fr);
      LinksRefl(abs, a, code);
      NoChain(code, NO_JUMP);
      if e.k.VJMP? {
        if pass {
          CompareAt(ops, abs, a, fr, code);
          InvertJump(e.info);
          SameJumps(old(abs), a, c0, code, e);
        }
        return Success(e.info);
      } else if (if pass then e.k.VK? || e.k.VKNUM? || e.k.VTRUE? else e.k.VNIL? || e.k.VFALSE?) {
        return Success(NO_JUMP);
      }
      r := JumpOnCond(e, !pass, ops, a, fr);
    }

    /** luaK_goiftrue. */
    method GoIfTrue(e: CExp, ghost ops: Ops, ghost a: AExp, ghost fr: int) returns (r: Result<CExp>)
      requires Holds(e, a) && Inv(ops, abs, a, fr)
      modifies this
      ensures r.Success? <==> CodeGen.GoIfTrue(old(abs), a).0.ok
      ensures r.Success? ==>
        Rep() && abs == CodeGen.GoIfTrue(old(abs), a).0 && ListsRep(code, r.value, CodeGen.GoIfTrue(old(abs), a).1)
      ensures r.Success? ==> LinksKept(old(abs), a, old(code), code)
    {
      hide CodeGen.DischargeVars, CodeGen.JumpOnCond, Chain, LinksKept, ListsOk, Frame, CodeRep, WFGen, Inv, JumpsKept,
          CodeGen.InvertJump;
      ghost var g0, c0 := abs, code;
      InvParts(ops, abs, a, fr);
      var e1 :- DischargeVars(e, a, fr);
      DischargeVarsKeeps(ops, g0, a, fr);
      ghost var g1, a1, c1 := abs, CodeGen.DischargeVars(g0, a).1, code;
      var pc :- ExitJump(e1, true, ops, a1, fr);
      ExitJumpKeeps(ops, g1, a1, true, fr);
      ghost var g2, l, c2 := abs, Conditions.ExitJump(g1, a1, true).1, code;
      ghost var a2 := WithJump(a1, false, l).(k := VNONRELOC);
      ExitLists(g2, a2, a1.t, a1.f, l);
      var f :- ConcatList(e1.f, pc, a1.f, l);
      ConcatFrame(c2, code, a1.f);
      JumpsSame(c2, Elems(a1.f), code, e1.t, a1.t);
      JumpsSame(c2, Elems(a1.f), code, jpc, abs.jpc);
      ghost var c3 := code;
      var _ :- PatchToHere(e1.t, a1.t);
      JumpsSame(c3, Elems(g2.jpc), code, f, a1.f + l);
      MineLinks(g2, a2, a1.f, c2, c3, code);
      LinksTrans(g1, a1, c1, g2, a2, c2, code);
      LinksTrans(g0, a, c0, g1, a1, c1, code);
      NoChain(code, NO_JUMP);
      return Success(e1.(f := f, t := NO_JUMP));
    }
    /** luaK_goiffalse. */
    method GoIfFalse(e: CExp, ghost ops: Ops, ghost a: AExp, ghost fr: int) returns (r: Result<CExp>)
      requires Holds(e, a) && Inv(ops, abs, a, fr)
      modifies this
      ensures r.Success? <==> CodeGen.GoIfFalse(old(abs), a).0.ok
      ensures r.Success? ==>
        Rep() && abs == CodeGen.GoIfFalse(old(abs), a).0 && ListsRep(code, r.value, CodeGen.GoIfFalse(old(abs), a).1)
      ensures r.Success? ==> LinksKept(old(abs), a, old(code), code)
    {
      hide CodeGen.DischargeVars, CodeGen.JumpOnCond, Chain, LinksKept, ListsOk, Frame, CodeRep, WFGen, Inv, JumpsKept,
          CodeGen.InvertJump;
      ghost var g0, c0 := abs, code;
      InvParts(ops, abs, a, fr);
      var e1 :- DischargeVars(e, a, fr);
      DischargeVarsKeeps(ops, g0, a, fr);
      ghost var g1, a1, c1 := abs, CodeGen.DischargeVars(g0, a).1, code;
      var pc :- ExitJump(e1, false, ops, a1, fr);
      ExitJumpKeeps(ops, g1, a1, false, fr);
      ghost var g2, l, c2 := abs, Conditions.ExitJump(g1, a1, false).1, code;
      ghost var a2 := WithJump(a1, true, l).(k := VNONRELOC);
      ExitLists(g2, a2, a1.f, a1.t, l);
      var t :- ConcatList(e1.t, pc, a1.t, l);
      ConcatFrame(c2, code, a1.t);
      JumpsSame(c2, Elems(a1.t), code, e1.f, a1.f);
      JumpsSame(c2, Elems(a1.t), code, jpc, abs.jpc);
      ghost var c3 := code;
      var _ :- PatchToHere(e1.f, a1.f);
      JumpsSame(c3, Elems(g2.jpc), code, t, a1.t + l);
      MineLinks(g2, a2, a1.t, c2, c3, code);
      LinksTrans(g1, a1, c1, g2, a2, c2, code);
      LinksTrans(g0, a, c0, g1, a1, c1, code);
      NoChain(code, NO_JUMP);
      return Success(e1.(t := t, f := NO_JUMP));
    }

    /** The switch of codenot. */
    method NegateValue(e: CExp, ghost ops: Ops, ghost a: AExp, ghost fr: int) returns (r: Result<CExp>)
      requires Holds(e, a) && Inv(ops, abs, a, fr) && !IsVar(a.k)
      modifies this
      ensures r.Success? <==> Negation.NegateValue(old(abs), a).0.ok
      ensures r.Success? ==>
        abs == Negation.NegateValue(old(abs), a).0 && Holds(r.value, Negation.NegateValue(old(abs), a).1)
      ensures r.Success? ==> LinksKept(old(abs), a, old(code), code)
    {
      hide CodeGen.Discharge2AnyReg, ListsRep, LinksKept, ListsOk, CodeRep, WFGen, CodeGen.InvertJump, Inv, JumpsKept,
          Chain, Emit, Frame;
      ghost var g0, c0 := abs, code;
      InvParts(ops, abs, a, fr);
      LinksRefl(abs, a, code);
      SameLists(code, e, a);
      if e.k.VNIL? || e.k.VFALSE? {
        return Success(e.(k := VTRUE));
      } else if e.k.VK? || e.k.VKNUM? || e.k.VTRUE? {
        return Success(e.(k := VFALSE));
      } else if e.k.VJMP? {
        CompareAt(ops, abs, a, fr, code);
        InvertJump(e.info);
        SameJumps(g0, a, c0, code, e);
        return Success(e);
      }
      var e1 :- Discharge2AnyReg(e, ops, a, fr);
      Discharge2AnyRegKeeps(ops, g0, a, fr);
      ghost var g1, a1, c1 := abs, CodeGen.Discharge2AnyReg(g0, a).1, code;
      FreedState(ops, g1, a1, fr);
      FreeExp(e1, a1);
      ghost var g2 := abs;
      PendingOk(g2);
      var pc :- Code(Not(0, e1.info), Not(0, a1.info));
      ListsStay(g2, a1, c1, code, e1);
      SameLists(code, e1, a1);
      LinksRefl(g1, a1, c1);
      LinksTrans(g1, a1, c1, g2, a1, c1, code);
      LinksTrans(g0, a, c0, g1, a1, c1, code);
      return Success(e1.(info := pc, k := VRELOCABLE));
    }

    /** codenot. */
    method CodeNot(e: CExp, ghost ops: Ops, ghost a: AExp, ghost fr: int) returns (r: Result<CExp>)
      requires Holds(e, a) && Inv(ops, abs, a, fr) && RawConst(abs, a)
      modifies this
      ensures r.Success? <==> CodeGen.CodeNot(old(abs), a).0.ok
      ensures r.Success? ==> abs == CodeGen.CodeNot(old(abs), a).0 && Holds(r.value, CodeGen.CodeNot(old(abs), a).1)
      ensures r.Success? ==> LinksKept(old(abs), a, old(code), code)
    {
      hide CodeGen.DischargeVars, CodeGen.CodeNot, Negation.NegateValue, ListsRep, LinksKept, ListsOk, CodeRep, WFGen,
          Inv, JumpsKept, Chain, Frame, CodeGen.RemoveValues;
      ghost var g0, c0 := abs, code;
      InvParts(ops, abs, a, fr);
      CodeNotIsNegate(abs, a);
      var e1 :- DischargeVars(e, a, fr);
      DischargeVarsKeeps(ops, g0, a, fr);
      ghost var g1, a1, c1 := abs, CodeGen.DischargeVars(g0, a).1, code;
      RawDischarged(ops, g0, a);
      var e2 :- NegateValue(e1, ops, a1, fr);
      NegateKeeps(ops, g1, a1, fr);
      ghost var g2, a2, c2 := abs, Negation.NegateValue(g1, a1).1, code;
      RemoveReady(ops, g2, a2, fr, code, e2);
      RemoveValues(e2.t, a2.t);
      ghost var c3 := code;
      SameJumps(g2, a2, c2, c3, e2);
      ListsParts(g2, a2, c3, e2);
      RemoveValues(e2.f, a2.f);
      JumpsTrans(c2, {}, c3, code);
      SameJumps(g2, a2, c2, code, e2);
      SwapLists(code, e2, a2);
      LinksTrans(g1, a1, c1, g2, a2, c2, code);
      LinksTrans(g0, a, c0, g1, a1, c1, code);
      return Success(e2.(t := e2.f, f := e2.t));
    }

    // ----- operators -----

    /** luaK_exp2RK on the first operand: one that luaK_infix has settled is not touched again. */
    method FirstOperand(e: CExp, ghost ops: Ops, ghost a: AExp, ghost fr: int, ghost fr2: int)
        returns (r: Result<(CExp, int)>)
      requires Holds(e, a) && WFGen(abs) && Waiting(ops, abs, a, fr, fr2)
      modifies this
      ensures r.Success? <==> CodeGen.Exp2RK(old(abs), a).0.ok
      ensures r.Success? ==>
        var (g', a', rk) := CodeGen.Exp2RK(old(abs), a);
        abs == g' && Holds(r.value.0, a') && r.value.1 == rk
      ensures r.Success? ==> LinksKept(old(abs), a, old(code), code)
    {
      hide CodeGen.Exp2RK, CodeRep, ListsRep, Chain, LinksKept, WFGen;
      if e.k.VKNUM? {
        NumeralInv(ops, abs, a);
        r := Exp2RK(e, ops, a, abs.freereg);
      } else {
        KeptAgain(abs, a);
        LinksRefl(abs, a, code);
        return Success((e, if e.k.VK? then RkAsK(e.info) else e.info));
      }
    }

    /** Freeing two operands, as codearith does it. */
    method FreeExps(e1: CExp, o1: int, e2: CExp, o2: int, ghost a1: AExp, ghost a2: AExp, ghost fr: int)
      requires Rep() && e1.k == a1.k && e1.info == a1.info && e2.k == a2.k && e2.info == a2.info
      requires Stacked(abs, a1, o1, a2, o2, fr) && (a1.k.VNONRELOC? && a2.k.VNONRELOC? && o1 == o2 ==> !IsTemp(abs, o1))
      modifies this`freereg, this`abs
      ensures Rep() && abs == CodeGen.FreeExps(old(abs), a1, o1, a2, o2)
    {
      hide CodeRep, Chain, ConstIndex;
      if o1 > o2 {
        FreeExp(e1, a1);
        FreeExp(e2, a2);
      } else {
        FreeExp(e2, a2);
        FreeExp(e1, a1);
      }
    }

    /** The operands of codearith: the second one is settled first. */
    method BothOperands(e1: CExp, e2: CExp, ghost ops: Ops, ghost a1: AExp, ghost a2: AExp, ghost fr: int,
        ghost fr2: int)
      returns (r: Result<(CExp, int, int)>)
      requires Holds(e2, a2) && ExpRep(code, e1, a1) && Inv(ops, abs, a2, fr2) && Waiting(ops, abs, a1, fr, fr2)
      modifies this
      ensures r.Success? <==> PairOperands(old(abs), a1, a2).0.ok
      ensures r.Success? ==>
        var (g', a', o1, o2) := PairOperands(old(abs), a1, a2);
        && abs == g' && Holds(r.value.0, a') && r.value.1 == o1 && r.value.2 == o2
        && !HasJumps(a') && !a'.k.VJMP? && NoDup(abs.jpc) && AllOpen(abs.code, Elems(abs.jpc))
        && Frame(old(abs), a2, abs, a')
      ensures r.Success? ==> LinksKept(old(abs), a2, old(code), code)
    {
      hide CodeGen.Exp2RK, CodeRep, ListsRep, Chain, LinksKept, WFGen, Frame, Inv, Settled, Waiting, Stacked,
          CodeGen.FreeExps;
      ghost var g0, c0 := abs, code;
      var s2 :- Exp2RK(e2, ops, a2, fr2);
      Exp2RKKeeps(ops, g0, a2, fr2);
      ghost var g1, a2', c1 := abs, CodeGen.Exp2RK(g0, a2).1, code;
      WaitingStill(ops, g0, g1, a1, fr, fr2);
      WaitingRep(ops, g0, a1, fr, fr2, c0, code, e1);
      InvParts(ops, g1, a2', fr2);
      var s1 :- FirstOperand(e1, ops, a1, fr, fr2);
      PairFacts(ops, g1, a1, a2', s2.1, fr, fr2);
      ghost var g2, a1', c2 := abs, CodeGen.Exp2RK(g1, a1).1, code;
      SettledPlain(g1, a2', s2.1);
      PlainLinks(g1, a1, a2', c1, c2);
      LinksTrans(g0, a2, c0, g1, a2', c1, c2);
      PendingOk(g2);
      FreeExps(s1.0, s1.1, s2.0, s2.1, a1', a2', fr);
      FreeOnly(g2, a1', s1.1, a2', s2.1);
      FrameTrans(g0, a2, g1, a2', g2, a1');
      FrameRegs(g0, a2, g2, a1', abs.freereg);
      return Success((s1.0, s1.1, s2.1));
    }

    /** The end of codearith. */
    method EmitOperator(e: CExp, i: CInstr, ghost i': AInstr, ghost a: AExp, ghost g0: Gen, ghost a0: AExp,
        ghost c0: seq<CInstr>)
      returns (r: Result<CExp>)
      requires Holds(e, a) && !HasJumps(a) && !a.k.VJMP? && i == Plain(i', |code|)
      requires NoDup(abs.jpc) && AllOpen(abs.code, Elems(abs.jpc))
      requires LinksKept(g0, a0, c0, code) && Frame(g0, a0, abs, a)
      modifies this
      ensures r.Success? <==> Emit(old(abs), i').ok
      ensures r.Success? ==> abs == Emit(old(abs), i') && Holds(r.value, a.(info := |old(abs).code|, k := VRELOCABLE))
      ensures r.Success? ==> LinksKept(g0, a0, c0, code)
    {
      hide CodeRep, Chain, Emit, LinksKept, ListsRep, ListsOk, Frame, JumpsKept;
      ghost var g1, c1 := abs, code;
      NoJumpLists(abs, a);
      var pc :- Code(i, i');
      ListsStay(g1, a, c1, code, e);
      SameLists(code, e, a);
      LinksTrans(g0, a0, c0, g1, a, c1, code);
      return Success(e.(info := pc, k := VRELOCABLE));
    }

    /** constfolding: the value of an operation on two numerals, unless it is not a number. */
    method ConstFolding(ops: Ops, op: ArithOp, e1: CExp, e2: CExp, ghost a1: AExp, ghost a2: AExp)
        returns (folded: Option<Num>)
      requires ExpRep(code, e1, a1) && ExpRep(code, e2, a2)
      ensures folded == FoldArith(ops, op, a1, a2)
    {
      hide ListsRep;
      NumeralRep(code, e1, a1);
      NumeralRep(code, e2, a2);
      if !(e1.k.VKNUM? && e1.t == NO_JUMP && e1.f == NO_JUMP) || !(e2.k.VKNUM? && e2.t == NO_JUMP && e2.f == NO_JUMP) {
        return None;
      }
      if (op.Div? || op.Mod?) && ops.isZero(e2.nval) {
        return None;
      }
      var r := ops.arith(op, e1.nval, e2.nval);
      return if ops.isNaN(r) then None else Some(r);
    }

    /** codearith for two numbers. */
    method CodeArith(ops: Ops, op: ArithOp, e1: CExp, e2: CExp, ghost a1: AExp, ghost a2: AExp, ghost fr: int,
        ghost fr2: int)
      returns (r: Result<CExp>)
      requires Holds(e2, a2) && ExpRep(code, e1, a1) && Inv(ops, abs, a2, fr2) && Waiting(ops, abs, a1, fr, fr2)
      modifies this
      ensures r.Success? <==> CodeGen.CodeArith(ops, old(abs), op, a1, a2).0.ok
      ensures r.Success? ==>
        abs == CodeGen.CodeArith(ops, old(abs), op, a1, a2).0
            && Holds(r.value, CodeGen.CodeArith(ops, old(abs), op, a1, a2).1)
      ensures r.Success? ==> LinksKept(old(abs), a2, old(code), code)
    {
      hide CodeGen.Exp2RK, CodeRep, ListsRep, Chain, LinksKept, WFGen, Frame, Inv, Waiting, CodeGen.FreeExps, Emit,
          JumpsKept, FoldArith;
      ghost var g0, c0 := abs, code;
      var folded := ConstFolding(ops, op, e1, e2, a1, a2);
      if folded.Some? {
        LinksRefl(abs, a2, code);
        SameLists(code, e1, a1);
        return Success(e1.(nval := folded.value));
      }
      var p :- BothOperands(e1, e2, ops, a1, a2, fr, fr2);
      r := EmitOperator(p.0, Arith(op, 0, p.1, p.2), Arith(op, 0, p.1, p.2), PairOperands(g0, a1, a2).1, g0, a2, c0);
    }

    /** codearith for a concatenation. */
    method CodeConcat(e1: CExp, e2: CExp, ghost ops: Ops, ghost a1: AExp, ghost a2: AExp, ghost fr: int, ghost fr2: int)
      returns (r: Result<CExp>)
      requires Holds(e2, a2) && ExpRep(code, e1, a1) && Inv(ops, abs, a2, fr2) && Waiting(ops, abs, a1, fr, fr2)
      modifies this
      ensures r.Success? <==> CodeGen.CodeConcat(old(abs), a1, a2).0.ok
      ensures r.Success? ==>
        abs == CodeGen.CodeConcat(old(abs), a1, a2).0 && Holds(r.value, CodeGen.CodeConcat(old(abs), a1, a2).1)
      ensures r.Success? ==> LinksKept(old(abs), a2, old(code), code)
    {
      hide CodeGen.Exp2RK, CodeRep, ListsRep, Chain, LinksKept, WFGen, Frame, Inv, Waiting, CodeGen.FreeExps, Emit,
          JumpsKept;
      ghost var g0, c0 := abs, code;
      var p :- BothOperands(e1, e2, ops, a1, a2, fr, fr2);
      r := EmitOperator(p.0, Concat(0, p.1, p.2), Concat(0, p.1, p.2), PairOperands(g0, a1, a2).1, g0, a2, c0);
    }

    /** codearith for the unary minus and the length operator. */
    method CodeUnary(minus: bool, e: CExp, ghost ops: Ops, ghost a: AExp, ghost fr: int) returns (r: Result<CExp>)
      requires Holds(e, a) && Inv(ops, abs, a, fr)
      modifies this
      ensures r.Success? <==> CodeGen.CodeUnary(old(abs), minus, a).0.ok
      ensures r.Success? ==>
          abs == CodeGen.CodeUnary(old(abs), minus, a).0 && Holds(r.value, CodeGen.CodeUnary(old(abs), minus, a).1)
      ensures r.Success? ==> LinksKept(old(abs), a, old(code), code)
    {
      hide CodeGen.Exp2RK, CodeRep, ListsRep, Chain, LinksKept, WFGen, Frame, Inv, CodeGen.FreeExp, Emit, JumpsKept,
          Settled;
      ghost var g0, c0 := abs, code;
      var p :- Exp2RK(e, ops, a, fr);
      Exp2RKKeeps(ops, g0, a, fr);
      ghost var g1, a1, c1 := abs, CodeGen.Exp2RK(g0, a).1, code;
      SettledPlain(g1, a1, p.1);
      FreedOperand(ops, g1, a1, p.1, fr);
      FreeExp(p.0, a1);
      FrameTrans(g0, a, g1, a1, abs, a1);
      if minus {
        r := EmitOperator(p.0, Unm(0, p.1), Unm(0, p.1), a1, g0, a, c0);
      } else {
        r := EmitOperator(p.0, Len(0, p.1), Len(0, p.1), a1, g0, a, c0);
      }
    }

    /** codecomp. */
    method CodeComp(op: CmpOp, cond: bool, e1: CExp, e2: CExp, ghost ops: Ops, ghost a1: AExp, ghost a2: AExp,
        ghost fr: int, ghost fr2: int)
      returns (r: Result<CExp>)
      requires Holds(e2, a2) && ExpRep(code, e1, a1) && Inv(ops, abs, a2, fr2) && Waiting(ops, abs, a1, fr, fr2)
          && !a1.k.VKNUM?
      modifies this
      ensures r.Success? <==> CodeGen.CodeComp(old(abs), op, cond, a1, a2).0.ok
      ensures r.Success? ==>
        abs == CodeGen.CodeComp(old(abs), op, cond, a1, a2).0
            && Holds(r.value, CodeGen.CodeComp(old(abs), op, cond, a1, a2).1)
      ensures r.Success? ==> LinksKept(old(abs), a2, old(code), code)
    {
      hide CodeGen.Exp2RK, CodeRep, ListsRep, Chain, LinksKept, WFGen, Frame, Inv, Waiting, CodeGen.FreeExp,
          CodeGen.CondJump, JumpsKept, CodeGen.CodeComp, Settled, Stacked, ConstIndex, HasJumps, Elems;
      ghost var g0, c0 := abs, code;
      WaitingKept(ops, g0, a1, fr, fr2);
      CodeCompIs(g0, op, cond, a1, a2);
      InvParts(ops, g0, a2, fr2);
      KeptAgain(g0, a1);
      var o1 := if e1.k.VK? then RkAsK(e1.info) else e1.info;
      var s2 :- Exp2RK(e2, ops, a2, fr2);
      Exp2RKKeeps(ops, g0, a2, fr2);
      ghost var g1, a2', c1 := abs, CodeGen.Exp2RK(g0, a2).1, code;
      WaitingStill(ops, g0, g1, a1, fr, fr2);
      WaitingRep(ops, g0, a1, fr, fr2, c0, code, e1);
      FreeCompared(e1, s2.0, ops, a1, a2', s2.1, fr, fr2);
      FrameTrans(g0, a2, g1, a2', abs, a1);
      r := EmitCompare(e1, if !cond && !op.EQ? then Cmp(op, true, s2.1, o1) else Cmp(op, cond, o1, s2.1),
                       CompareInstr(op, cond, KeptRK(a1), s2.1), a1, g0, a2, c0);
    }

    /** codecomp frees its second operand first. */
    method FreeCompared(e1: CExp, e2: CExp, ghost ops: Ops, ghost a1: AExp, ghost a2: AExp, ghost o2: int,
        ghost fr: int, ghost fr2: int)
      requires Rep() && e1.k == a1.k && e1.info == a1.info && e2.k == a2.k && e2.info == a2.info
      requires Inv(ops, abs, a2, fr2) && Settled(abs, a2, o2) && Waiting(ops, abs, a1, fr, fr2) && !a1.k.VKNUM?
      modifies this`freereg, this`abs
      ensures Rep() && abs == CodeGen.FreeExp(CodeGen.FreeExp(old(abs), a2), a1)
      ensures WFGen(abs) && Frame(old(abs), a2, abs, a1)
    {
      hide CodeRep, Chain, ConstIndex, WFGen, Frame, Inv, Settled, Waiting;
      CompareFree(ops, abs, a1, a2, o2, fr, fr2);
      FreeExp(e2, a2);
      FreeExp(e1, a1);
    }

    /** The end of codecomp. */
    method EmitCompare(e: CExp, i: CInstr, ghost i': AInstr, ghost a: AExp, ghost g0: Gen, ghost a0: AExp,
        ghost c0: seq<CInstr>)
      returns (r: Result<CExp>)
      requires Holds(e, a) && WFGen(abs) && !HasJumps(a) && !a.k.VJMP? && i == Plain(i', |code|) && i'.Cmp?
      requires LinksKept(g0, a0, c0, code) && Frame(g0, a0, abs, a)
      modifies this
      ensures r.Success? <==> CodeGen.CondJump(old(abs), i').0.ok
      ensures r.Success? ==>
        var (g', l) := CodeGen.CondJump(old(abs), i');
        abs == g' && l != [] && Holds(r.value, a.(info := l[0], k := VJMP))
      ensures r.Success? ==> LinksKept(g0, a0, c0, code)
    {
      hide CodeRep, Chain, LinksKept, ListsRep, ListsOk, Frame, JumpsKept, WFGen, CodeGen.CondJump;
      ghost var g1, c1 := abs, code;
      NoJumpLists(abs, a);
      CondJumpWF(abs, i');
      var jump :- CondJump(i, i');
      ListsStay(g1, a, c1, code, e);
      LinksTrans(g0, a0, c0, g1, a, c1, code);
      OneJump(code, jump, CodeGen.CondJump(g1, i').1, e, a);
      return Success(e.(info := jump, k := VJMP));
    }

    /** luaK_indexed. */
    method Indexed(t: CExp, key: CExp, ghost ops: Ops, ghost at: AExp, ghost a: AExp, ghost fr: int, ghost fr2: int)
      returns (r: Result<CExp>)
      requires Holds(key, a) && Inv(ops, abs, a, fr2) && ExpRep(code, t, at) && Waiting(ops, abs, at, fr, fr2)
      modifies this
      ensures r.Success? <==> CodeGen.Indexed(old(abs), at, a).0.ok
      ensures r.Success? ==>
          abs == CodeGen.Indexed(old(abs), at, a).0 && Holds(r.value, CodeGen.Indexed(old(abs), at, a).1)
      ensures r.Success? ==> LinksKept(old(abs), a, old(code), code)
    {
      hide CodeGen.Exp2RK, CodeRep, ListsRep, Chain, LinksKept, WFGen, Inv, Waiting;
      ghost var g0, c0 := abs, code;
      var s :- Exp2RK(key, ops, a, fr2);
      WaitingRep(ops, g0, at, fr, fr2, c0, code, t);
      SameLists(code, t, at);
      return Success(t.(aux := s.1, k := VINDEXED));
    }

    /** luaK_prefix. */
    method Prefix(ops: Ops, op: UnOpr, e: CExp, ghost a: AExp, ghost fr: int) returns (r: Result<CExp>)
      requires Holds(e, a) && Inv(ops, abs, a, fr) && RawConst(abs, a)
      modifies this
      ensures r.Success? <==> CodeGen.Prefix(ops, old(abs), op, a).0.ok
      ensures r.Success? ==>
          abs == CodeGen.Prefix(ops, old(abs), op, a).0 && Holds(r.value, CodeGen.Prefix(ops, old(abs), op, a).1)
      ensures r.Success? ==> LinksKept(old(abs), a, old(code), code)
    {
      hide CodeGen.Exp2AnyReg, CodeGen.CodeNot, CodeGen.CodeUnary, CodeRep, ListsRep, Chain, LinksKept, WFGen, Inv,
          Frame;
      ghost var g0, c0 := abs, code;
      if op.NOT? {
        r := CodeNot(e, ops, a, fr);
        return;
      }
      NumeralRep(code, e, a);
      if op.MINUS? && e.k.VKNUM? && e.t == NO_JUMP && e.f == NO_JUMP {
        if ops.isNaN(ops.unm(e.nval)) {
          r := CodeUnary(true, e, ops, a, fr);
        } else {
          SameLists(code, e, a);
          LinksRefl(abs, a, code);
          r := Success(e.(nval := ops.unm(e.nval)));
        }
        return;
      }
      var e1 :- Exp2AnyReg(e, ops, a, fr);
      Exp2AnyRegKeeps(ops, g0, a, fr);
      ghost var g1, a1, c1 := abs, CodeGen.Exp2AnyReg(g0, a).1, code;
      r := CodeUnary(op.MINUS?, e1, ops, a1, fr);
      if r.Success? { LinksTrans(g0, a, c0, g1, a1, c1, code); }
    }

    /** luaK_infix; after `and` and `or` only the lists of the descriptor matter. */
    method Infix(op: BinOpr, e: CExp, ghost ops: Ops, ghost a: AExp, ghost fr: int) returns (r: Result<CExp>)
      requires Holds(e, a) && Inv(ops, abs, a, fr)
      modifies this
      ensures r.Success? <==> CodeGen.Infix(old(abs), op, a).0.ok
      ensures r.Success? ==>
          Rep() && abs == CodeGen.Infix(old(abs), op, a).0 && ListsRep(code, r.value, CodeGen.Infix(old(abs), op, a).1)
      ensures r.Success? && !op.AND? && !op.OR? ==> ExpRep(code, r.value, CodeGen.Infix(old(abs), op, a).1)
      ensures r.Success? ==> LinksKept(old(abs), a, old(code), code)
    {
      hide CodeGen.Exp2NextReg, CodeGen.Exp2RK, CodeGen.GoIfTrue, CodeGen.GoIfFalse, CodeRep, ListsRep, Chain,
          LinksKept, WFGen, Inv, Frame;
      if op.AND? {
        r := GoIfTrue(e, ops, a, fr);
      } else if op.OR? {
        r := GoIfFalse(e, ops, a, fr);
      } else if op.CONCAT? {
        r := Exp2NextReg(e, ops, a, fr);
      } else {
        NumeralRep(code, e, a);
        if op.ARITH? && e.k.VKNUM? && e.t == NO_JUMP && e.f == NO_JUMP {
          LinksRefl(abs, a, code);
          return Success(e);
        }
        var s :- Exp2RK(e, ops, a, fr);
        return Success(s.0);
      }
    }

    /** The case of luaK_posfix for `and` and `or`: the exits of the first operand join
        those of the second. */
    method JoinExits(pass: bool, e1: CExp, e2: CExp, ghost ops: Ops, ghost a1: AExp, ghost a2: AExp, ghost fr: int)
        returns (r: Result<CExp>)
      requires Holds(e2, a2) && Inv(ops, abs, a2, fr)
      requires ListsRep(code, e1, a1) && ExitsWait(abs, a1, a2, pass)
      modifies this
      ensures r.Success? <==> CodeGen.Posfix(ops, old(abs), if pass then AND else OR, a1, a2).0.ok
      ensures r.Success? ==>
        var (g', a') := CodeGen.Posfix(ops, old(abs), if pass then AND else OR, a1, a2);
        abs == g' && Holds(r.value, a')
      ensures r.Success? ==> LinksKept(old(abs), a2, old(code), code)
    {
      hide CodeGen.DischargeVars, CodeRep, Chain, LinksKept, WFGen, Inv, Frame, ListsOk, JumpsKept;
      ghost var g0, c0 := abs, code;
      InvParts(ops, g0, a2, fr);
      var e :- DischargeVars(e2, a2, fr);
      DischargeVarsKeeps(ops, g0, a2, fr);
      ghost var g1, a, c1 := abs, CodeGen.DischargeVars(g0, a2).1, code;
      ghost var exits, own := if pass then a1.f else a1.t, if pass then a.f else a.t;
      ExitsStay(ops, g0, a1, a2, pass, c0, g1, a, fr, c1, e1);
      var l :- ConcatList(if pass then e.f else e.t, if pass then e1.f else e1.t, own, exits);
      ConcatFrame(c1, code, own);
      JoinedRep(ops, g1, a, fr, pass, exits, c1, code, e, l, jpc);
      LinksTrans(g0, a2, c0, g1, a, c1, code);
      return Success(if pass then e.(f := l) else e.(t := l));
    }

    /** SETARG_B on the concatenation at pc. */
    method TakeOneMore(pc: nat, b: int, ghost ops: Ops, ghost g: Gen, ghost a: AExp, ghost fr: int)
      requires Rep() && Inv(ops, g, a, fr) && a.k.VRELOCABLE? && pc == a.info && g.code[pc].Concat?
      requires abs == g.(freereg := abs.freereg)
      modifies this`code, this`abs
      ensures Rep() && LinksKept(g, a, old(code), code)
      ensures pc < |g.code| && abs == old(abs).(code := g.code[pc := Concat(g.code[pc].a, b, g.code[pc].c)])
    {
      hide Chain, LinksKept, JumpsKept, WFCode;
      InvParts(ops, g, a, fr);
      PendingOk(g);
      ConcatRep(g, a, code, pc, b, jpc);
      var i := code[pc];
      code := code[pc := Concat(i.a, b, i.c)];
      abs := abs.(code := abs.code[pc := Concat(i.a, b, i.c)]);
      MergedLinks(ops, g, a, fr, old(code), code);
    }

    /** The case of luaK_posfix for `..`: a concatenation to the right takes one more operand. */
    method PosfixConcat(e1: CExp, e2: CExp, ghost ops: Ops, ghost a1: AExp, ghost a2: AExp, ghost fr: int,
        ghost fr2: int)
      returns (r: Result<CExp>)
      requires Holds(e2, a2) && Inv(ops, abs, a2, fr2) && ExpRep(code, e1, a1) && Waiting(ops, abs, a1, fr, fr2)
      requires a1.k.VNONRELOC? && IsTemp(abs, a1.info)
      modifies this
      ensures r.Success? <==> CodeGen.Posfix(ops, old(abs), CONCAT, a1, a2).0.ok
      ensures r.Success? ==>
        abs == CodeGen.Posfix(ops, old(abs), CONCAT, a1, a2).0
            && Holds(r.value, CodeGen.Posfix(ops, old(abs), CONCAT, a1, a2).1)
      ensures r.Success? ==> LinksKept(old(abs), a2, old(code), code)
    {
      hide CodeGen.Exp2Val, CodeGen.Exp2NextReg, CodeGen.CodeConcat, CodeRep, ListsRep, Chain, LinksKept, WFGen, Inv,
          Frame, Waiting, JumpsKept, ConstIndex;
      ghost var g0, c0 := abs, code;
      var e :- Exp2Val(e2, ops, a2, fr2);
      Exp2ValKeeps(ops, g0, a2, fr2);
      ghost var g1, a, c1 := abs, CodeGen.Exp2Val(g0, a2).1, code;
      WaitingStill(ops, g0, g1, a1, fr, fr2);
      WaitingRep(ops, g0, a1, fr, fr2, c0, code, e1);
      if e.k.VRELOCABLE? {
        LastInstr(ops, abs, a, fr2, code);
        var i := code[e.info];
        if i.Concat? {
          ConcatFollows(ops, abs, a1, a, fr, fr2);
          assert e1.info == i.b - 1;
          FreeExp(e1, a1);
          TakeOneMore(e.info, e1.info, ops, g1, a, fr2);
          LinksTrans(g0, a2, c0, g1, a, c1, code);
          WaitingRep(ops, g0, a1, fr, fr2, c0, code, e1);
          SameLists(code, e1, a1);
          return Success(e1.(k := VRELOCABLE, info := e.info));
        }
      }
      var e' :- Exp2NextReg(e, ops, a, fr2);
      Exp2NextRegKeeps(ops, g1, a, fr2);
      ghost var g2, a', c2 := abs, CodeGen.Exp2NextReg(g1, a).1, code;
      LinksTrans(g0, a2, c0, g1, a, c1, c2);
      FrameTrans(g0, a2, g1, a, g2, a');
      WaitingStill(ops, g1, g2, a1, fr, fr2);
      WaitingRep(ops, g0, a1, fr, fr2, c0, code, e1);
      r := CodeConcat(e1, e', ops, a1, a', fr, fr2);
      if r.Success? { LinksTrans(g0, a2, c0, g2, a', c2, code); }
    }

    /** luaK_posfix. */
    method Posfix(ops: Ops, op: BinOpr, e1: CExp, e2: CExp, ghost a1: AExp, ghost a2: AExp, ghost fr: int,
        ghost fr2: int)
      returns (r: Result<CExp>)
      requires Holds(e2, a2) && Inv(ops, abs, a2, fr2)
      requires FirstReady(ops, op, abs, code, e1, a1, a2, fr, fr2)
      modifies this
      ensures r.Success? <==> CodeGen.Posfix(ops, old(abs), op, a1, a2).0.ok
      ensures r.Success? ==>
          abs == CodeGen.Posfix(ops, old(abs), op, a1, a2).0
          && Holds(r.value, CodeGen.Posfix(ops, old(abs), op, a1, a2).1)
      ensures r.Success? ==> LinksKept(old(abs), a2, old(code), code)
    {
      hide CodeGen.CodeArith, CodeGen.CodeComp, CodeGen.Exp2Val, CodeGen.Exp2NextReg, CodeGen.CodeConcat,
          CodeGen.DischargeVars, CodeRep, ListsRep, Chain, LinksKept, Inv, Waiting, ExitsWait;
      match op {
        case AND => r := JoinExits(true, e1, e2, ops, a1, a2, fr2);
        case OR => r := JoinExits(false, e1, e2, ops, a1, a2, fr2);
        case CONCAT => r := PosfixConcat(e1, e2, ops, a1, a2, fr, fr2);
        case ARITH(aop) => r := CodeArith(ops, aop, e1, e2, a1, a2, fr, fr2);
        case EQUAL => r := CodeComp(EQ, true, e1, e2, ops, a1, a2, fr, fr2);
        case NE => r := CodeComp(EQ, false, e1, e2, ops, a1, a2, fr, fr2);
        case LESS => r := CodeComp(LT, true, e1, e2, ops, a1, a2, fr, fr2);
        case LESSEQ => r := CodeComp(LE, true, e1, e2, ops, a1, a2, fr, fr2);
        case GREATER => r := CodeComp(LT, false, e1, e2, ops, a1, a2, fr, fr2);
        case GREATEREQ => r := CodeComp(LE, false, e1, e2, ops, a1, a2, fr, fr2);
      }
    }
  }

  // ----- frames -----

  lemma LinksRefl(g: Gen, a: AExp, c: seq<CInstr>)
    ensures LinksKept(g, a, c, c)
  {
  }

  lemma LinksTrans(g: Gen, a: AExp, c: seq<CInstr>, g1: Gen, a1: AExp, c1: seq<CInstr>, c2: seq<CInstr>)
    requires LinksKept(g, a, c, c1) && Frame(g, a, g1, a1) && LinksKept(g1, a1, c1, c2)
    ensures LinksKept(g, a, c, c2)
  {
  }

  lemma JumpsRefl(c: seq<CInstr>)
    ensures JumpsKept(c, c, {})
  {
  }

  lemma JumpsTrans(c: seq<CInstr>, l: set<nat>, c1: seq<CInstr>, c2: seq<CInstr>)
    requires JumpsKept(c, c1, {}) || JumpsKept(c, c1, l)
    requires JumpsKept(c1, c2, {})
    ensures JumpsKept(c, c2, l) && (JumpsKept(c, c1, {}) ==> JumpsKept(c, c2, {}))
  {
  }

  lemma JumpsUnion(c: seq<CInstr>, l1: set<nat>, c1: seq<CInstr>, l2: set<nat>, c2: seq<CInstr>)
    requires (JumpsKept(c, c1, l1) || JumpsKept(c, c1, {})) && JumpsKept(c1, c2, l2)
    ensures JumpsKept(c, c2, l1 + l2)
  {
  }

  lemma ListsParts(g: Gen, a: AExp, c: seq<CInstr>, e: CExp)
    requires ListsOk(g, a) && ListsRep(c, e, a)
    ensures NoDup(a.t) && NoDup(a.f) && AllOpen(g.code, Elems(a.t)) && AllOpen(g.code, Elems(a.f))
    ensures Chain(c, e.t, a.t) && Chain(c, e.f, a.f)
  {
  }

  lemma SameLength(c: seq<CInstr>, a: Code)
    requires CodeRep(c, a)
    ensures |c| == |a|
  {
  }

  lemma LoadsLists(g: Gen, a: AExp, reg: int)
    requires WFGen(g) && ListsOk(g, a) && 0 <= reg < MAXSTACK && (a.k.VJMP? ==> g.jpc == [])
    requires CodeGen.WithLoads(g, a.k.VJMP?, reg).ok
    ensures var g1 := CodeGen.WithLoads(g, a.k.VJMP?, reg);
            ListsOk(g1, a) && NoDup(g1.jpc) && |g1.code| >= 2
  {
    hide RunFrom, CodeGen.WithLoads, Closable;
    WithLoadsInPlace(g, a, reg);
  }

  /** The lists of an expression once its own jump is counted among them. */
  lemma OwnJumpFacts(ops: Ops, g: Gen, a: AExp, reg: int, fr: int, c: seq<CInstr>, e: CExp)
    requires Shape(ops, g, a, fr) && (a.k.VJMP? || (a.k.VNONRELOC? && a.info == reg)) && ExpRep(c, e, a)
    ensures WFGen(g) && ListsOk(g, OwnJump(a)) && NoDup(g.jpc)
    ensures a.k.VJMP? ==>
        g.jpc == [] && a.info >= 0 && ConcatReady(g, a) && Chain(c, e.t, a.t) && Chain(c, e.info, JumpAt(a.info))
  {
    hide RunFrom, WFCode, Chain;
    AnyRun(g, a, fr, reg, AnyEnv(ops, []));
    OwnJumpOk(ops, g, a, reg, fr, reg, AnyEnv(ops, []), map[], Any);
  }

  ghost predicate ConcatReady(g: Gen, a: AExp) {
    NoDup(a.t) && AllOpen(g.code, Elems(a.t)) && Apart(a.t, JumpAt(a.info))
  }

  lemma OwnConcat(ops: Ops, g: Gen, a: AExp, fr: int, c: seq<CInstr>, c': seq<CInstr>, e: CExp, t: int)
    requires Shape(ops, g, a, fr) && a.k.VJMP? && ExpRep(c, e, a)
    requires Chain(c', t, a.t + JumpAt(a.info))
    requires |c'| == |c| && forall j: nat :: j < |c| && j !in a.t ==> c'[j] == c[j]
    ensures ListsRep(c', e.(t := t), OwnJump(a)) && JumpsKept(c, c', Elems(a.t))
  {
    ChainSame(c, c', e.f, a.f);
    assert forall j :: j in Elems(a.t) <==> j in a.t;
  }

  lemma ListHeads(c: seq<CInstr>, e: CExp, a: AExp)
    requires ListsRep(c, e, a)
    ensures (e.t == NO_JUMP <==> a.t == []) && (e.f == NO_JUMP <==> a.f == [])
  {
  }

  lemma OwnLinks(g: Gen, a: AExp, c: seq<CInstr>, c1: seq<CInstr>, c2: seq<CInstr>)
    requires JumpsKept(c, c1, Elems(a.t)) || JumpsKept(c, c1, {})
    requires JumpsKept(c1, c2, Elems(g.jpc) + Elems(OwnJump(a).t) + Elems(a.f)) || JumpsKept(c1, c2, {})
    requires a.k.VJMP? ==> a.info >= 0
    requires CodeRep(c, g.code)
    ensures LinksKept(g, a, c, c2)
  {
    forall j: nat | Outer(g, a, j) && j < |c| ensures j < |c2| && c2[j] == c[j] {
      assert InstrRep(c[j], g.code[j], j);
    }
  }

  lemma NoChains(c: seq<CInstr>, e: CExp, a: AExp)
    requires e.t == NO_JUMP && e.f == NO_JUMP && a.t == [] && a.f == []
    ensures ListsRep(c, e, a)
  {
  }

  lemma InvParts(ops: Ops, g: Gen, a: AExp, fr: int)
    requires Inv(ops, g, a, fr)
    ensures WFGen(g) && ListsOk(g, a) && Held(g, a, fr)
  {
  }

  lemma TopReg(ops: Ops, g: Gen, a: AExp, fr: int)
    requires Inv(ops, g, a, fr)
    ensures a.k.VNONRELOC? && IsTemp(g, a.info) ==> a.info == g.freereg - 1
  {
    hide WFGen, ListsOk;
  }

  lemma RegBounds(ops: Ops, g: Gen, a: AExp, fr: int)
    requires Inv(ops, g, a, fr) && a.k.VNONRELOC?
    ensures 0 <= a.info < MAXSTACK
  {
    hide ListsOk;
  }

  lemma DischargedAgain(g: Gen, a: AExp)
    requires !IsVar(a.k)
    ensures CodeGen.DischargeVars(g, a) == (g, a)
  {
  }

  /** There is room for a constant that fits an operand. */
  lemma SmallK(g: Gen, v: Value)
    requires |g.consts| <= MAXINDEXRK && g.ok
    ensures CodeGen.AddK(g, v).0.ok
  {
  }

  function TestSetExit(g0: Gen, e0: AExp, cond: bool): (Gen, seq<nat>) {
    var (g1, e1) := CodeGen.Discharge2AnyReg(g0, e0);
    CodeGen.CondJump(CodeGen.FreeExp(g1, e1), TestSet(NO_REG, e1.info, cond))
  }

  function PairOperands(g0: Gen, a1: AExp, a2: AExp): (Gen, AExp, int, int) {
    var (g1, a2', o2) := CodeGen.Exp2RK(g0, a2);
    var (g2, a1', o1) := CodeGen.Exp2RK(g1, a1);
    (CodeGen.FreeExps(g2, a1', o1, a2', o2), a1', o1, o2)
  }

  lemma WaitingRep(ops: Ops, g: Gen, a: AExp, fr: int, fr2: int, c: seq<CInstr>, c': seq<CInstr>, e: CExp)
    requires Waiting(ops, g, a, fr, fr2) && ExpRep(c, e, a)
    ensures ExpRep(c', e, a) && !HasJumps(a) && !a.k.VJMP?
  {
  }

  lemma SettledPlain(g: Gen, a: AExp, rk: int)
    requires Settled(g, a, rk)
    ensures !HasJumps(a) && !a.k.VJMP?
  {
  }

  lemma PlainLinks(g: Gen, a: AExp, a': AExp, c: seq<CInstr>, c': seq<CInstr>)
    requires !HasJumps(a) && !HasJumps(a') && !a.k.VJMP? && !a'.k.VJMP?
    ensures LinksKept(g, a, c, c') == LinksKept(g, a', c, c')
  {
    assert forall j :: Outer(g, a, j) == Outer(g, a', j);
  }

  lemma FreeOnly(g: Gen, a1: AExp, o1: int, a2: AExp, o2: int)
    ensures var g' := CodeGen.FreeExps(g, a1, o1, a2, o2);
            g' == g.(freereg := g'.freereg)
  {
  }

  lemma NumeralRep(c: seq<CInstr>, e: CExp, a: AExp)
    requires ExpRep(c, e, a)
    ensures IsNumeral(a) <==> e.k.VKNUM? && e.t == NO_JUMP && e.f == NO_JUMP
  {
  }

  lemma OneJump(c: seq<CInstr>, l: int, s: seq<nat>, e: CExp, a: AExp)
    requires Chain(c, l, s) && |s| == 1 && ListsRep(c, e, a)
    ensures l == s[0] && Chain(c, l, JumpAt(s[0])) && ListsRep(c, e.(info := l, k := VJMP), a.(info := s[0], k := VJMP))
  {
  }

  /** The exits of the first operand wait while the second is compiled. */
  ghost predicate ExitsWait(g: Gen, a1: AExp, a2: AExp, pass: bool) {
    var exits := if pass then a1.f else a1.t;
    forall j :: j in exits ==> Outer(g, a2, j)
  }

  /** The first operand of an operator, once the second one has been compiled. */
  ghost predicate FirstReady(ops: Ops, op: BinOpr, g: Gen, c: seq<CInstr>, e1: CExp, a1: AExp, a2: AExp, fr: int,
      fr2: int) {
    if op.AND? || op.OR? then ListsRep(c, e1, a1) && ExitsWait(g, a1, a2, op.AND?)
    else
      && ExpRep(c, e1, a1) && Waiting(ops, g, a1, fr, fr2)
      && (!op.ARITH? ==> !a1.k.VKNUM?) && (op.CONCAT? ==> a1.k.VNONRELOC? && IsTemp(g, a1.info))
  }

  lemma ExitsStay(ops: Ops, g: Gen, a1: AExp, a2: AExp, pass: bool, c: seq<CInstr>, g1: Gen, a: AExp, fr: int,
      c1: seq<CInstr>, e1: CExp)
    requires ListsRep(c, e1, a1) && ExitsWait(g, a1, a2, pass) && CodeRep(c, g.code)
    requires Frame(g, a2, g1, a) && LinksKept(g, a2, c, c1) && Inv(ops, g1, a, fr)
    ensures var exits, own := if pass then a1.f else a1.t, if pass then a.f else a.t;
            && Chain(c1, if pass then e1.f else e1.t, exits)
            && NoDup(own) && Apart(own, exits) && AllOpen(g1.code, Elems(own)) && NoDup(g1.jpc)
  {
    hide Chain, WFCode;
    var exits := if pass then a1.f else a1.t;
    forall j | j in exits ensures Outer(g1, a, j) && j < |c| && j < |c1| && c1[j] == c[j] {
      assert Outer(g, a2, j);
    }
    ChainSame(c, c1, if pass then e1.f else e1.t, exits);
    assert forall j :: j in exits ==> !MyJump(a, j);
  }

  lemma JoinedRep(ops: Ops, g: Gen, a: AExp, fr: int, pass: bool, exits: seq<nat>, c: seq<CInstr>, c': seq<CInstr>,
      e: CExp, l: int, jpc: int)
    requires Inv(ops, g, a, fr) && CodeRep(c, g.code) && ExpRep(c, e, a) && Chain(c, jpc, g.jpc)
    requires Chain(c', l, (if pass then a.f else a.t) + exits) && JumpsKept(c, c', Elems(if pass then a.f else a.t))
    ensures Chain(c', jpc, g.jpc) && LinksKept(g, a, c, c')
    ensures ExpRep(c', if pass then e.(f := l) else e.(t := l), if pass then a.(f := a.f + exits)
        else a.(t := a.t + exits))
  {
    hide Chain, WFCode;
    var own, other := if pass then a.f else a.t, if pass then a.t else a.f;
    assert Elems(other) !! Elems(own) && Elems(g.jpc) !! Elems(own);
    JumpsSame(c, Elems(own), c', if pass then e.t else e.f, other);
    JumpsSame(c, Elems(own), c', jpc, g.jpc);
    if a.k.VJMP? { JumpsSame(c, Elems(own), c', e.info, JumpAt(a.info)); }
    forall j: nat | Outer(g, a, j) && j < |c| ensures j < |c'| && c'[j] == c[j] {
      assert InstrRep(c[j], g.code[j], j);
    }
  }

  lemma ConcatRep(g: Gen, a: AExp, c: seq<CInstr>, pc: int, b: int, jpc: int)
    requires CodeRep(c, g.code) && 0 <= pc < |c| && g.code[pc].Concat? && NoDup(g.jpc) && Chain(c, jpc, g.jpc)
    ensures c[pc] == Plain(g.code[pc], pc)
    ensures var i := c[pc];
            && CodeRep(c[pc := Concat(i.a, b, i.c)], g.code[pc := Concat(i.a, b, i.c)])
            && Chain(c[pc := Concat(i.a, b, i.c)], jpc, g.jpc)
            && JumpsKept(c, c[pc := Concat(i.a, b, i.c)], {})
  {
    hide Chain;
    assert InstrRep(c[pc], g.code[pc], pc);
    var i := c[pc];
    JumpsSame(c, {}, c[pc := Concat(i.a, b, i.c)], jpc, g.jpc);
  }

  lemma MergedLinks(ops: Ops, g: Gen, a: AExp, fr: int, c: seq<CInstr>, c': seq<CInstr>)
    requires Inv(ops, g, a, fr) && CodeRep(c, g.code) && JumpsKept(c, c', {})
    ensures LinksKept(g, a, c, c')
  {
    forall j: nat | Outer(g, a, j) && j < |c| ensures j < |c'| && c'[j] == c[j] {
      assert InstrRep(c[j], g.code[j], j);
    }
  }

  /** A relocatable expression waits for the last instruction. */
  lemma LastInstr(ops: Ops, g: Gen, a: AExp, fr: int, c: seq<CInstr>)
    requires Inv(ops, g, a, fr) && a.k.VRELOCABLE? && CodeRep(c, g.code)
    ensures 0 <= a.info == |g.code| - 1 == |c| - 1 && c[a.info] == Plain(g.code[a.info], a.info)
        && IsReloc(g.code[a.info])
  {
    assert InstrRep(c[a.info], g.code[a.info], a.info);
  }

  lemma DropNot(ops: Ops, g: Gen, a: AExp, fr: int, c: seq<CInstr>, e: CExp)
    requires Inv(ops, g, a, fr) && a.k.VRELOCABLE? && CodeRep(c, g.code) && ExpRep(c, e, a)
    ensures a.info == |c| - 1 >= 0
    ensures var h := g.(code := g.code[..a.info]);
            var c1 := c[..a.info];
            && WFGen(h) && ListsOk(h, a) && Frame(g, a, h, a) && h.jpc == []
            && CodeRep(c1, h.code) && LinksKept(g, a, c, c1) && ListsRep(c1, e, a)
  {
    hide RunFrom, WFCode, AllOpen, ListsRep, LinksKept;
    LastInstr(ops, g, a, fr, c);
    FrontLists(ops, g, a);
    ListsStay(g, a, c, c[..a.info], e);
  }

  /** The same lists have the same heads. */
  lemma SameHeads(c: seq<CInstr>, e: CExp, a: AExp, c1: seq<CInstr>, e1: CExp, a1: AExp)
    requires ListsRep(c, e, a) && ListsRep(c1, e1, a1) && a1.t == a.t && a1.f == a.f
    ensures e1.t == e.t && e1.f == e.f && ListsRep(c1, e, a)
  {
  }

  lemma CompareAt(ops: Ops, g: Gen, a: AExp, fr: int, c: seq<CInstr>)
    requires Inv(ops, g, a, fr) && a.k.VJMP? && CodeRep(c, g.code)
    ensures 1 <= a.info < |g.code| == |c| && g.code[a.info] == Jmp(Open) && g.code[a.info - 1].Cmp?
  {
  }

  /** Nothing but tests changed. */
  lemma SameJumps(g: Gen, a: AExp, c: seq<CInstr>, c': seq<CInstr>, e: CExp)
    requires CodeRep(c, g.code) && ListsOk(g, a) && ExpRep(c, e, a) && JumpsKept(c, c', {})
    ensures ExpRep(c', e, a) && LinksKept(g, a, c, c')
  {
    ListsStay(g, a, c, c', e);
    if a.k.VJMP? { JumpsSame(c, {}, c', e.info, JumpAt(a.info)); }
  }

  lemma ExitLists(g: Gen, a: AExp, t: seq<nat>, f: seq<nat>, l: seq<nat>)
    requires WFGen(g) && ListsOk(g, a) && ((a.t == t && a.f == f + l) || (a.t == f + l && a.f == t))
    ensures NoDup(f) && NoDup(t) && NoDup(g.jpc) && NoDup(f + l) && Apart(f, l) && Apart(g.jpc, t)
    ensures AllOpen(g.code, Elems(f)) && AllOpen(g.code, Elems(g.jpc))
    ensures Elems(t) !! Elems(f) && Elems(g.jpc) !! Elems(f) && Elems(f + l) !! Elems(g.jpc)
  {
    var fl := f + l;
    assert forall i :: 0 <= i < |f| ==> fl[i] == f[i];
    forall i, n | 0 <= i < |f| && 0 <= n < |l| ensures f[i] != l[n] {
      assert fl[i] == f[i] && fl[|f| + n] == l[n];
    }
    assert forall j :: j in f ==> j in Elems(fl);
  }

  lemma ConcatFrame(c: seq<CInstr>, c': seq<CInstr>, s: seq<nat>)
    requires |c'| == |c| && forall j: nat :: j < |c'| && j !in s ==> c'[j] == c[j]
    ensures JumpsKept(c, c', Elems(s))
  {
  }

  /** First the own list f, then the jumps waiting for this place were relinked. */
  lemma MineLinks(g: Gen, a: AExp, f: seq<nat>, c: seq<CInstr>, c1: seq<CInstr>, c2: seq<CInstr>)
    requires JumpsKept(c, c1, Elems(f)) && JumpsKept(c1, c2, Elems(g.jpc)) && CodeRep(c, g.code)
    requires Elems(f) <= Elems(a.t) + Elems(a.f)
    ensures LinksKept(g, a, c, c2)
  {
    forall j: nat | Outer(g, a, j) && j < |c| ensures j < |c2| && c2[j] == c[j] {
      assert InstrRep(c[j], g.code[j], j);
      assert j !in Elems(a.t) + Elems(a.f);
    }
  }

  lemma PendingOk(g: Gen)
    requires WFGen(g)
    ensures NoDup(g.jpc) && AllOpen(g.code, Elems(g.jpc))
  {
  }

  lemma RawDischarged(ops: Ops, g: Gen, a: AExp)
    requires RawConst(g, a)
    ensures RawConst(CodeGen.DischargeVars(g, a).0, CodeGen.DischargeVars(g, a).1)
  {
  }

  lemma RemoveReady(ops: Ops, g: Gen, a: AExp, fr: int, c: seq<CInstr>, e: CExp)
    requires Inv(ops, g, a, fr) && ExpRep(c, e, a)
    ensures Chain(c, e.t, a.t) && NoDup(a.t) && NoDup(a.f) && AllOpen(g.code, Elems(a.t)) && NoDup(g.jpc)
        && ListsOk(g, a)
    ensures AllOpen(CodeGen.RemoveValues(g, a.t).code, Elems(a.f)) && CodeGen.RemoveValues(g, a.t).jpc == g.jpc
  {
    hide Chain, WFCode;
    RemoveWF(g, a.t);
  }

  lemma SwapLists(c: seq<CInstr>, e: CExp, a: AExp)
    requires ListsRep(c, e, a)
    ensures ListsRep(c, e.(t := e.f, f := e.t), a.(t := a.f, f := a.t))
  {
  }

  lemma LabelLists(g: Gen, a: AExp)
    requires ListsOk(g, a)
    ensures ListsOk(CodeGen.GetLabel(g), a)
  {
  }

  lemma PatchKeepsOpen(c: Code, l: set<nat>, vtarget: nat, reg: int, dtarget: nat, s: set<nat>)
    requires AllOpen(c, s) && s !! l
    ensures AllOpen(Patch(c, l, vtarget, reg, dtarget), s)
  {
    forall j | j in s ensures OpenAt(Patch(c, l, vtarget, reg, dtarget), j) {
      assert OpenAt(c, j);
    }
  }

  /** What only touches jumps that wait for the current position leaves an expression alone. */
  lemma ListsStay(g: Gen, a: AExp, c: seq<CInstr>, c': seq<CInstr>, e: CExp)
    requires CodeRep(c, g.code) && ListsOk(g, a) && ListsRep(c, e, a) && JumpsKept(c, c', Elems(g.jpc))
    ensures ListsRep(c', e, a) && LinksKept(g, a, c, c')
  {
    forall j: nat | OpenAt(g.code, j) && j !in g.jpc ensures j < |c'| && c'[j] == c[j] {
      assert InstrRep(c[j], g.code[j], j);
    }
    forall j | j in a.t || j in a.f ensures j < |c| && j < |c'| && c'[j] == c[j] {
      assert j in Elems(a.t) || j in Elems(a.f);
      assert OpenAt(g.code, j);
    }
    ChainSame(c, c', e.t, a.t);
    ChainSame(c, c', e.f, a.f);
  }

  lemma AddKOnly(g: Gen, v: Value)
    ensures CodeGen.AddK(g, v).0 == g.(consts := CodeGen.AddK(g, v).0.consts, ok := CodeGen.AddK(g, v).0.ok)
    ensures g.ok ==> (CodeGen.AddK(g, v).0.ok <==> v in g.consts || |g.consts| < MAXARG_BX)
  {
  }

  lemma RelocRep(c: seq<CInstr>, a: Code, pc: int, reg: int)
    requires CodeRep(c, a) && 0 <= pc < |a| && IsReloc(a[pc])
    ensures pc < |c| && IsReloc(c[pc]) && CodeRep(c[pc := SetA(c[pc], reg)], a[pc := SetA(a[pc], reg)])
    ensures JumpsKept(c, c[pc := SetA(c[pc], reg)], {})
  {
    assert InstrRep(c[pc], a[pc], pc);
  }

  /** The list luaK_jump makes. */
  lemma JumpList(g: Gen)
    requires WFGen(g)
    ensures var (g', s) := CodeGen.Jump(g);
            NoDup(s) && AllOpen(g'.code, Elems(s)) && g'.jpc == [] && Elems(g'.jpc) == {} && Apart(g'.jpc, s)
  {
    hide RunFrom, WFGen, CodeGen.Jump;
    JumpWF(g);
  }

  lemma ControlRep(c: seq<CInstr>, a: Code, j: nat)
    requires CodeRep(c, a) && j < |c| && a[j] == Jmp(Open)
    ensures j >= 1 ==> IsTest(c[j - 1]) == IsTest(a[j - 1]) && c[j - 1].TestSet? == a[j - 1].TestSet?
  {
    if j >= 1 { assert InstrRep(c[j - 1], a[j - 1], j - 1); }
    assert InstrRep(c[j], a[j], j);
  }

  lemma RetestNone(c: Code)
    ensures Retest(c, {}) == c
  {
  }

  /** Dropping the value of one more member changes the TESTSET in front of it only. */
  lemma RetestOneMore(c: Code, s: seq<nat>, i: nat, code: seq<CInstr>)
    requires NoDup(s) && i < |s| && AllOpen(c, Elems(s)) && CodeRep(code, Retest(c, Elems(s[..i])))
    ensures s[i] < |c| == |code| && code[s[i]].Jmp?
    ensures var j := s[i];
            CodeRep(if j >= 1 && code[j - 1].TestSet? then code[j - 1 := Test(code[j - 1].b, code[j - 1].flag)]
                else code,
                    Retest(c, Elems(s[..i + 1])))
  {
    var j := s[i];
    assert j in Elems(s);
    assert OpenAt(c, j);
    NotBefore(s, i);
    var l := Elems(s[..i]);
    var r := Retest(c, l);
    var r2 := Retest(c, l + {j});
    assert r[j] == Jmp(Open);
    assert InstrRep(code[j], r[j], j);
    var c2 := if j >= 1 && code[j - 1].TestSet? then code[j - 1 := Test(code[j - 1].b, code[j - 1].flag)] else code;
    forall m: nat | m < |c2| ensures InstrRep(c2[m], r2[m], m) {
      assert InstrRep(code[m], r[m], m);
    }
  }

  /** A list of jumps none of which changed. */
  lemma JumpsSame(c: seq<CInstr>, touched: set<nat>, c': seq<CInstr>, l: int, s: seq<nat>)
    requires Chain(c, l, s) && NoDup(s) && JumpsKept(c, c', touched) && Elems(s) !! touched
    ensures Chain(c', l, s)
  {
    forall j | j in s && j < |c| ensures j < |c'| && c'[j] == c[j] {
      var m :| 0 <= m < |s| && s[m] == j;
      ChainAt(c, l, s, m);
      assert j in Elems(s);
    }
    ChainSame(c, c', l, s);
  }

  lemma RepAppend(c: seq<CInstr>, a: Code, i: CInstr, ai: AInstr)
    requires CodeRep(c, a) && i == Plain(ai, |c|)
    ensures CodeRep(c + [i], a + [ai])
  {
  }

  lemma NoChain(c: seq<CInstr>, l: int)
    ensures Chain(c, l, []) <==> l == NO_JUMP
  {
  }

  /** The new jump is a list of its own, apart from the jumps that were waiting. */
  lemma JumpStart(c: seq<CInstr>, j: nat, s: seq<nat>, c0: seq<CInstr>, l: int)
    requires j == |c0| && |c| == j + 1 && c[j] == Jmp(NO_JUMP) && Chain(c0, l, s) && NoDup(s)
    requires forall i: nat :: i < |c0| && c0[i].Jmp? ==> c[i] == c0[i]
    ensures Chain(c, j, [j]) && Chain(c, l, s) && NoDup([j]) && Apart([j], s)
  {
    forall i | i in s ensures i < |c0| && c0[i].Jmp? {
      var m :| 0 <= m < |s| && s[m] == i;
      ChainAt(c0, l, s, m);
    }
    ChainSame(c0, c, l, s);
    assert GetJump(c, j) == NO_JUMP;
    assert [j][1..] == [];
  }

  /** No jump outside the list changes. */
  ghost predicate JumpsKept(c0: seq<CInstr>, c1: seq<CInstr>, l: set<nat>) {
    forall j: nat :: j < |c0| && c0[j].Jmp? && j !in l ==> j < |c1| && c1[j] == c0[j]
  }

  lemma PatchOkOneMore(c: Code, s: seq<nat>, i: nat, vtarget: nat, dtarget: nat)
    requires i < |s| && s[i] < |c|
    ensures PatchOk(c, s[..i + 1], vtarget, dtarget) <==>
            PatchOk(c, s[..i], vtarget, dtarget) && InJumpRange(s[i], PatchDest(c, s[i], vtarget, dtarget))
    ensures PatchOk(c, s, vtarget, dtarget) ==> InJumpRange(s[i], PatchDest(c, s[i], vtarget, dtarget))
  {
    hide InJumpRange, PatchDest;
    assert s[..i + 1] == s[..i] + [s[i]];
    assert s[i] in s;
  }

  lemma ChainHead(c: seq<CInstr>, l: int, s: seq<nat>)
    requires Chain(c, l, s)
    ensures l == if s == [] then NO_JUMP else s[0]
  {
  }

  lemma PatchNone(c: Code, code: seq<CInstr>, vtarget: nat, reg: int, dtarget: nat)
    ensures Patch(c, {}, vtarget, reg, dtarget) == c && PatchOk(c, [], vtarget, dtarget) && JumpsKept(code, code, {})
  {
  }

  lemma NotBefore(s: seq<nat>, i: nat)
    requires NoDup(s) && i < |s|
    ensures s[i] !in s[..i]
    ensures Elems(s[..i + 1]) == Elems(s[..i]) + {s[i]}
  {
    assert s[..i + 1] == s[..i] + [s[i]];
  }

  /** The code after one iteration of patchlistaux. */
  function AfterOne(code: seq<CInstr>, c: Code, j: nat, vtarget: nat, reg: int, dtarget: nat): seq<CInstr>
    requires j < |code| == |c|
  {
    var c1 := if ByTestSet(c, j) then code[j - 1 := Plain(RetargetTest(c[j - 1], reg), j - 1)] else code;
    c1[j := Jmp(PatchDest(c, j, vtarget, dtarget) - (j + 1))]
  }

  lemma MemberFacts(c: Code, s: seq<nat>, i: nat, vtarget: nat, reg: int, dtarget: nat, c0: seq<CInstr>,
      code: seq<CInstr>)
    requires NoDup(s) && i < |s| && AllOpen(c, Elems(s)) && CodeRep(c0, c)
    requires CodeRep(code, Patch(c, Elems(s[..i]), vtarget, reg, dtarget)) && JumpsKept(c0, code, Elems(s[..i]))
    ensures s[i] < |c| == |code| && code[s[i]] == c0[s[i]] && code[s[i]].Jmp? && c[s[i]] == Jmp(Open)
    ensures s[i] >= 1 ==> code[s[i] - 1].TestSet? == c[s[i] - 1].TestSet?
    ensures ByTestSet(c, s[i]) ==> code[s[i] - 1] == Plain(c[s[i] - 1], s[i] - 1) == c0[s[i] - 1]
  {
    var j := s[i];
    NotBefore(s, i);
    assert j in Elems(s);
    assert OpenAt(c, j);
    var l := Elems(s[..i]);
    assert InstrRep(c0[j], c[j], j);
    if j >= 1 {
      if c[j - 1].TestSet? { NotOpenNotIn(c, s, i, j - 1); }
      assert Patch(c, l, vtarget, reg, dtarget)[j - 1].TestSet? == c[j - 1].TestSet?;
      assert InstrRep(code[j - 1], Patch(c, l, vtarget, reg, dtarget)[j - 1], j - 1);
      assert InstrRep(c0[j - 1], c[j - 1], j - 1);
    }
  }

  lemma OneMoreRep(c: Code, l: set<nat>, j: nat, vtarget: nat, reg: int, dtarget: nat, code: seq<CInstr>)
    requires j < |c| && c[j] == Jmp(Open) && CodeRep(code, Patch(c, l, vtarget, reg, dtarget))
    requires ByTestSet(c, j) ==> j - 1 !in l
    ensures CodeRep(AfterOne(code, c, j, vtarget, reg, dtarget), Patch(c, l + {j}, vtarget, reg, dtarget))
  {
    var p := Patch(c, l, vtarget, reg, dtarget);
    var p2 := Patch(c, l + {j}, vtarget, reg, dtarget);
    var c2 := AfterOne(code, c, j, vtarget, reg, dtarget);
    forall i: nat | i < |c2| ensures InstrRep(c2[i], p2[i], i) {
      assert InstrRep(code[i], p[i], i);
    }
  }

  /** Patching one more member changes its jump and the TESTSET in front of it only. */
  lemma PatchOneMore(c: Code, s: seq<nat>, i: nat, vtarget: nat, reg: int, dtarget: nat, c0: seq<CInstr>,
      code: seq<CInstr>)
    requires NoDup(s) && i < |s| && AllOpen(c, Elems(s)) && CodeRep(c0, c)
    requires CodeRep(code, Patch(c, Elems(s[..i]), vtarget, reg, dtarget)) && JumpsKept(c0, code, Elems(s[..i]))
    ensures s[i] < |c| == |code| && code[s[i]] == c0[s[i]] && code[s[i]].Jmp?
    ensures s[i] >= 1 ==> code[s[i] - 1].TestSet? == c[s[i] - 1].TestSet?
    ensures ByTestSet(c, s[i]) ==> code[s[i] - 1] == Plain(c[s[i] - 1], s[i] - 1)
    ensures var c2 := AfterOne(code, c, s[i], vtarget, reg, dtarget);
            && CodeRep(c2, Patch(c, Elems(s[..i + 1]), vtarget, reg, dtarget))
            && JumpsKept(c0, c2, Elems(s[..i + 1]))
  {
    MemberFacts(c, s, i, vtarget, reg, dtarget, c0, code);
    hide CodeRep, Patch, InstrRep;
    NotBefore(s, i);
    var l := Elems(s[..i]);
    if ByTestSet(c, s[i]) {
      assert (s[i] - 1) as nat !in l by { NotOpenNotIn(c, s, i, s[i] - 1); }
    }
    OneMoreRep(c, l, s[i], vtarget, reg, dtarget, code);
  }

  lemma NotOpenNotIn(c: Code, s: seq<nat>, i: nat, j: nat)
    requires AllOpen(c, Elems(s)) && i <= |s| && j < |c| && c[j].TestSet?
    ensures j !in Elems(s[..i])
  {
    assert forall m :: m in s[..i] ==> m in Elems(s);
  }
}
