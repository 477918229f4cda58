/** The code generator (lcode.c) as functions on a generator state: the specification
    the in-place generator of module LCode is proved against. A patch list is the
    sequence of its members, and an error raised by the C code clears `ok` for good. */
module CodeGen {
  import opened Common
  import opened LuaValues
  import opened Opcodes
  import opened PartialCode

  datatype Kind =
    | VVOID | VNIL | VTRUE | VFALSE | VK | VKNUM | VLOCAL | VUPVAL | VGLOBAL
    | VINDEXED | VJMP | VRELOCABLE | VNONRELOC

  /** expdesc; L is how patch lists are represented. */
  datatype Exp<L> = Exp(k: Kind, info: int, aux: int, nval: Num, t: L, f: L)

  type AExp = Exp<seq<nat>>

  datatype Gen = Gen(
    code: Code,
    consts: seq<Value>,
    jpc: seq<nat>,
    lasttarget: int,
    freereg: int,
    nactvar: nat,
    maxstack: int,
    ok: bool)

  /** What later steps of a compilation never undo: errors stay, constants are only added. */
  ghost predicate Grows(g: Gen, g': Gen) {
    && (g'.ok ==> g.ok)
    && g.consts <= g'.consts
    && g'.nactvar == g.nactvar
    && g.maxstack <= g'.maxstack
  }

  function InitExp(k: Kind, info: int): AExp {
    Exp(k, info, 0, Num(0), [], [])
  }

  predicate HasJumps(e: AExp) {
    e.t != [] || e.f != []
  }

  predicate IsNumeral(e: AExp) {
    e.k == VKNUM && e.t == [] && e.f == []
  }

  // ----- jump lists -----

  /** fixjump's range check. */
  predicate InJumpRange(from: int, dest: int) {
    -MAXARG_SBX <= dest - (from + 1) <= MAXARG_SBX
  }

  /** luaK_concat: the last member of the first list is linked to the second list. */
  function ConcatOk(l1: seq<nat>, l2: seq<nat>): bool {
    l1 != [] && l2 != [] ==> InJumpRange(l1[|l1| - 1], l2[0])
  }

  predicate PatchOk(c: Code, l: seq<nat>, vtarget: nat, dtarget: nat) {
    forall j :: j in l && j < |c| ==> InJumpRange(j, PatchDest(c, j, vtarget, dtarget))
  }

  function PatchListAux(g: Gen, l: seq<nat>, vtarget: nat, reg: int, dtarget: nat): (r: Gen)
    ensures Grows(g, r)
  {
    g.(code := Patch(g.code, Elems(l), vtarget, reg, dtarget),
       ok := g.ok && PatchOk(g.code, l, vtarget, dtarget))
  }

  function DischargeJpc(g: Gen): (r: Gen)
    ensures Grows(g, r)
  {
    PatchListAux(g, g.jpc, |g.code|, NO_REG, |g.code|).(jpc := [])
  }

  function Emit(g: Gen, i: AInstr): (r: Gen)
    ensures Grows(g, r)
  {
    var g1 := DischargeJpc(g);
    g1.(code := g1.code + [i])
  }

  function Jump(g: Gen): (r: (Gen, seq<nat>))
    ensures Grows(g, r.0)
  {
    var pc := |g.code|;
    var g1 := Emit(g.(jpc := []), Jmp(Open));
    (g1.(ok := g1.ok && ConcatOk([pc], g.jpc)), [pc] + g.jpc)
  }

  function CondJump(g: Gen, i: AInstr): (r: (Gen, seq<nat>))
    ensures Grows(g, r.0)
  {
    Jump(Emit(g, i))
  }

  function GetLabel(g: Gen): (r: Gen)
    ensures Grows(g, r)
  {
    g.(lasttarget := |g.code|)
  }

  function PatchToHere(g: Gen, l: seq<nat>): (r: Gen)
    ensures Grows(g, r)
  {
    g.(lasttarget := |g.code|, jpc := g.jpc + l, ok := g.ok && ConcatOk(g.jpc, l))
  }

  /** Some jump of the list does not produce a value. */
  predicate NeedValue(c: Code, l: seq<nat>) {
    exists j :: j in l && !(j < |c| && ByTestSet(c, j))
  }

  function RemoveValues(g: Gen, l: seq<nat>): (r: Gen)
    ensures Grows(g, r)
  {
    g.(code := Retest(g.code, Elems(l)))
  }

  // ----- registers and constants -----

  function CheckStack(g: Gen, n: int): (r: Gen)
    ensures Grows(g, r)
  {
    var newstack := g.freereg + n;
    if newstack > g.maxstack then
      if newstack >= MAXSTACK then g.(ok := false) else g.(maxstack := newstack)
    else g
  }

  function ReserveRegs(g: Gen, n: int): (r: Gen)
    ensures Grows(g, r)
  {
    var g1 := CheckStack(g, n);
    g1.(freereg := g1.freereg + n)
  }

  function FreeReg(g: Gen, reg: int): (r: Gen)
    ensures Grows(g, r)
  {
    if !IsK(reg) && reg >= g.nactvar then g.(freereg := g.freereg - 1) else g
  }

  function FreeExp(g: Gen, e: AExp): (r: Gen)
    ensures Grows(g, r)
  {
    if e.k.VNONRELOC? then FreeReg(g, e.info) else g
  }

  function FindK(k: seq<Value>, v: Value): (i: int)
    ensures 0 <= i <= |k|
    ensures i < |k| ==> k[i] == v
    ensures i == |k| ==> v !in k
  {
    if k == [] then 0 else if k[0] == v then 0 else 1 + FindK(k[1..], v)
  }

  function AddK(g: Gen, v: Value): (r: (Gen, int))
    ensures Grows(g, r.0)
  {
    var i := FindK(g.consts, v);
    if i < |g.consts| then (g, i)
    else (g.(consts := g.consts + [v], ok := g.ok && |g.consts| < MAXARG_BX), |g.consts|)
  }

  // ----- expressions to registers -----

  function LuaKNil(g: Gen, from: int, n: int): (r: Gen)
    ensures Grows(g, r)
  {
    var pc := |g.code|;
    if pc > g.lasttarget && pc == 0 && from >= g.nactvar then g
    else if pc > g.lasttarget && pc > 0 && g.code[pc - 1].LoadNil?
            && g.code[pc - 1].a <= from <= g.code[pc - 1].b + 1 then
      if from + n - 1 > g.code[pc - 1].b then
        g.(code := g.code[pc - 1 := LoadNil(g.code[pc - 1].a, from + n - 1)])
      else g
    else Emit(g, LoadNil(from, from + n - 1))
  }

  function DischargeVars(g: Gen, e: AExp): (r: (Gen, AExp))
    ensures Grows(g, r.0)
  {
    match e.k
    case VLOCAL => (g, e.(k := VNONRELOC))
    case VUPVAL => (Emit(g, GetUpval(0, e.info)), e.(info := |g.code|, k := VRELOCABLE))
    case VGLOBAL => (Emit(g, GetGlobal(0, e.info)), e.(info := |g.code|, k := VRELOCABLE))
    case VINDEXED =>
      var g1 := FreeReg(FreeReg(g, e.aux), e.info);
      (Emit(g1, GetTable(0, e.info, e.aux)), e.(info := |g.code|, k := VRELOCABLE))
    case _ => (g, e)
  }

  /** SETARG_A on the instruction a relocatable expression is waiting for. */
  function Relocate(g: Gen, pc: int, reg: int): (r: Gen)
    ensures Grows(g, r)
  {
    if 0 <= pc < |g.code| && IsReloc(g.code[pc]) then g.(code := g.code[pc := SetA(g.code[pc], reg)]) else g
  }

  function Discharge2Reg(g0: Gen, e0: AExp, reg: int): (r: (Gen, AExp))
    ensures Grows(g0, r.0)
  {
    var (g, e) := DischargeVars(g0, e0);
    var e' := e.(info := reg, k := VNONRELOC);
    match e.k
    case VNIL => (LuaKNil(g, reg, 1), e')
    case VFALSE => (Emit(g, LoadBool(reg, false, false)), e')
    case VTRUE => (Emit(g, LoadBool(reg, true, false)), e')
    case VK => (Emit(g, LoadK(reg, e.info)), e')
    case VKNUM => var (g1, i) := AddK(g, Number(e.nval)); (Emit(g1, LoadK(reg, i)), e')
    case VRELOCABLE => (Relocate(g, e.info, reg), e')
    case VNONRELOC => (if reg != e.info then Emit(g, Move(reg, e.info)) else g, e')
    case _ => (g, e)
  }

  function Discharge2AnyReg(g: Gen, e: AExp): (r: (Gen, AExp))
    ensures Grows(g, r.0)
  {
    if e.k.VNONRELOC? then (g, e)
    else
      var g1 := ReserveRegs(g, 1);
      Discharge2Reg(g1, e, g1.freereg - 1)
  }

  function CodeLabel(g: Gen, a: int, b: bool, skip: bool): (r: Gen)
    ensures Grows(g, r)
  {
    Emit(GetLabel(g), LoadBool(a, b, skip))
  }

  /** The loads of false and true, and a jump over them unless control falls into them
      only when the value is false. */
  function WithLoads(g: Gen, fallsIn: bool, reg: int): (r: Gen)
    ensures Grows(g, r)
  {
    var (g1, fj) := if fallsIn then (g, []) else Jump(g);
    var g2 := CodeLabel(g1, reg, false, true);
    var g3 := CodeLabel(g2, reg, true, false);
    GetLabel(PatchToHere(g3, fj))
  }

  function PatchBoth(g: Gen, e: AExp, final: nat, reg: int, pF: nat, pT: nat): (r: Gen)
    ensures Grows(g, r)
  {
    PatchListAux(PatchListAux(g, e.f, final, reg, pF), e.t, final, reg, pT)
  }

  /** The tail of exp2reg, once the value has been dealt with and the lists are final. */
  function CloseJumps(g: Gen, e: AExp, reg: int): (r: Gen)
    ensures Grows(g, r)
  {
    if NeedValue(g.code, e.t) || NeedValue(g.code, e.f) then
      var g1 := WithLoads(g, e.k.VJMP?, reg);
      var final := |g1.code|;
      if final < 2 then g1 else PatchBoth(g1, e, final, reg, final - 2, final - 1)
    else
      var g1 := GetLabel(g);
      var final := |g1.code|;
      PatchBoth(g1, e, final, reg, final, final)
  }

  /** The list holding just the jump of a VJMP expression. */
  function JumpAt(pc: int): seq<nat> {
    if pc >= 0 then [pc] else []
  }

  function ConcatLists(g: Gen, l1: seq<nat>, l2: seq<nat>): (r: (Gen, seq<nat>))
    ensures Grows(g, r.0)
  {
    (g.(ok := g.ok && ConcatOk(l1, l2)), l1 + l2)
  }

  function Exp2Reg(g0: Gen, e0: AExp, reg: int): (r: (Gen, AExp))
    ensures Grows(g0, r.0)
  {
    var (g1, e1) := Discharge2Reg(g0, e0, reg);
    var (g2, t) := ConcatLists(g1, e1.t, if e1.k.VJMP? then JumpAt(e1.info) else []);
    var e2 := e1.(t := t);
    var g3 := if HasJumps(e2) then CloseJumps(g2, e2, reg) else g2;
    (g3, e2.(f := [], t := [], info := reg, k := VNONRELOC))
  }

  function Exp2NextReg(g0: Gen, e0: AExp): (r: (Gen, AExp))
    ensures Grows(g0, r.0)
  {
    var (g, e) := DischargeVars(g0, e0);
    var g1 := ReserveRegs(FreeExp(g, e), 1);
    Exp2Reg(g1, e, g1.freereg - 1)
  }

  function Exp2AnyReg(g0: Gen, e0: AExp): (r: (Gen, AExp))
    ensures Grows(g0, r.0)
  {
    var (g, e) := DischargeVars(g0, e0);
    if e.k.VNONRELOC? && !HasJumps(e) then (g, e)
    else if e.k.VNONRELOC? && e.info >= g.nactvar then Exp2Reg(g, e, e.info)
    else Exp2NextReg(g, e)
  }

  function Exp2Val(g: Gen, e: AExp): (r: (Gen, AExp))
    ensures Grows(g, r.0)
  {
    if HasJumps(e) then Exp2AnyReg(g, e) else DischargeVars(g, e)
  }

  /** luaK_exp2RK; the operand is returned beside the new descriptor. */
  function Exp2RK(g0: Gen, e0: AExp): (r: (Gen, AExp, int))
    ensures Grows(g0, r.0)
  {
    var (g, e) := Exp2Val(g0, e0);
    if (e.k.VKNUM? || e.k.VTRUE? || e.k.VFALSE? || e.k.VNIL?) && |g.consts| <= MAXINDEXRK then
      var v := if e.k.VNIL? then Nil else if e.k.VKNUM? then Number(e.nval) else Bool(e.k.VTRUE?);
      var (g1, i) := AddK(g, v);
      (g1, e.(info := i, k := VK), RkAsK(i))
    else if e.k.VK? && e.info <= MAXINDEXRK then (g, e, RkAsK(e.info))
    else
      var (g1, e1) := Exp2AnyReg(g, e);
      (g1, e1, e1.info)
  }

  // ----- conditions -----

  /** Flip the condition of the comparison controlling the jump at pc. */
  function InvertJump(g: Gen, pc: int): (r: Gen)
    ensures Grows(g, r)
  {
    if 1 <= pc <= |g.code| && g.code[pc - 1].Cmp? then
      var i := g.code[pc - 1];
      g.(code := g.code[pc - 1 := Cmp(i.cop, !i.cond, i.b, i.c)])
    else g
  }

  function JumpOnCond(g0: Gen, e0: AExp, cond: bool): (r: (Gen, seq<nat>))
    ensures Grows(g0, r.0)
  {
    if e0.k.VRELOCABLE? && 0 <= e0.info == |g0.code| - 1 && g0.code[e0.info].Not? then
      var i := g0.code[e0.info];
      CondJump(g0.(code := g0.code[..e0.info]), Test(i.b, !cond))
    else
      var (g1, e1) := Discharge2AnyReg(g0, e0);
      CondJump(FreeExp(g1, e1), TestSet(NO_REG, e1.info, cond))
  }

  function GoIfTrue(g0: Gen, e0: AExp): (r: (Gen, AExp))
    ensures Grows(g0, r.0)
  {
    var (g, e) := DischargeVars(g0, e0);
    var (g1, pc) :=
      match e.k
      case VK => (g, [])
      case VKNUM => (g, [])
      case VTRUE => (g, [])
      case VJMP => (InvertJump(g, e.info), JumpAt(e.info))
      case _ => JumpOnCond(g, e, false);
    var (g2, f) := ConcatLists(g1, e.f, pc);
    (PatchToHere(g2, e.t), e.(f := f, t := []))
  }

  function GoIfFalse(g0: Gen, e0: AExp): (r: (Gen, AExp))
    ensures Grows(g0, r.0)
  {
    var (g, e) := DischargeVars(g0, e0);
    var (g1, pc) :=
      match e.k
      case VNIL => (g, [])
      case VFALSE => (g, [])
      case VJMP => (g, JumpAt(e.info))
      case _ => JumpOnCond(g, e, true);
    var (g2, t) := ConcatLists(g1, e.t, pc);
    (PatchToHere(g2, e.f), e.(t := t, f := []))
  }

  function CodeNot(g0: Gen, e0: AExp): (r: (Gen, AExp))
    ensures Grows(g0, r.0)
  {
    var (g, e) := DischargeVars(g0, e0);
    var (g1, e1) :=
      match e.k
      case VNIL => (g, e.(k := VTRUE))
      case VFALSE => (g, e.(k := VTRUE))
      case VK => (g, e.(k := VFALSE))
      case VKNUM => (g, e.(k := VFALSE))
      case VTRUE => (g, e.(k := VFALSE))
      case VJMP => (InvertJump(g, e.info), e)
      case _ =>
        var (g2, e2) := Discharge2AnyReg(g, e);
        var g3 := FreeExp(g2, e2);
        (Emit(g3, Not(0, e2.info)), e2.(info := |g3.code|, k := VRELOCABLE));
    (RemoveValues(RemoveValues(g1, e.t), e.f), e1.(f := e.t, t := e.f))
  }

  // ----- operators -----

  function Indexed(g0: Gen, t: AExp, key: AExp): (r: (Gen, AExp))
    ensures Grows(g0, r.0)
  {
    var (g, _, rk) := Exp2RK(g0, key);
    (g, t.(aux := rk, k := VINDEXED))
  }

  /** The folded operand, if both operands are numerals and the result is a number. */
  function FoldArith(ops: Ops, op: ArithOp, e1: AExp, e2: AExp): Option<Num> {
    if !IsNumeral(e1) || !IsNumeral(e2) then None
    else if (op.Div? || op.Mod?) && ops.isZero(e2.nval) then None
    else
      var r := ops.arith(op, e1.nval, e2.nval);
      if ops.isNaN(r) then None else Some(r)
  }

  /** Free two operands, the one in the higher register first. */
  function FreeExps(g: Gen, e1: AExp, o1: int, e2: AExp, o2: int): (r: Gen)
    ensures Grows(g, r)
  {
    if o1 > o2 then FreeExp(FreeExp(g, e1), e2) else FreeExp(FreeExp(g, e2), e1)
  }

  function CodeArith(ops: Ops, g0: Gen, op: ArithOp, e1: AExp, e2: AExp): (r: (Gen, AExp))
    ensures Grows(g0, r.0)
  {
    match FoldArith(ops, op, e1, e2)
    case Some(r) => (g0, e1.(nval := r))
    case None =>
      var (g1, e2', o2) := Exp2RK(g0, e2);
      var (g2, e1', o1) := Exp2RK(g1, e1);
      var g3 := FreeExps(g2, e1', o1, e2', o2);
      (Emit(g3, Arith(op, 0, o1, o2)), e1'.(info := |g3.code|, k := VRELOCABLE))
  }

  function CodeConcat(g0: Gen, e1: AExp, e2: AExp): (r: (Gen, AExp))
    ensures Grows(g0, r.0)
  {
    var (g1, e2', o2) := Exp2RK(g0, e2);
    var (g2, e1', o1) := Exp2RK(g1, e1);
    var g3 := FreeExps(g2, e1', o1, e2', o2);
    (Emit(g3, Concat(0, o1, o2)), e1'.(info := |g3.code|, k := VRELOCABLE))
  }

  function CodeUnary(g0: Gen, minus: bool, e: AExp): (r: (Gen, AExp))
    ensures Grows(g0, r.0)
  {
    var (g1, e1, o1) := Exp2RK(g0, e);
    var g2 := FreeExp(g1, e1);
    (Emit(g2, if minus then Unm(0, o1) else Len(0, o1)), e1.(info := |g2.code|, k := VRELOCABLE))
  }

  function CodeComp(g0: Gen, op: CmpOp, cond: bool, e1: AExp, e2: AExp): (r: (Gen, AExp))
    ensures Grows(g0, r.0)
  {
    var (g1, e1', o1) := Exp2RK(g0, e1);
    var (g2, e2', o2) := Exp2RK(g1, e2);
    var g3 := FreeExp(FreeExp(g2, e2'), e1');
    var swap := !cond && !op.EQ?;
    var (g4, l) := CondJump(g3, if swap then Cmp(op, true, o2, o1) else Cmp(op, cond, o1, o2));
    (g4, e1'.(info := if l == [] then -1 else l[0], k := VJMP))
  }

  function Prefix(ops: Ops, g0: Gen, op: UnOpr, e0: AExp): (r: (Gen, AExp))
    ensures Grows(g0, r.0)
  {
    match op
    case NOT => CodeNot(g0, e0)
    case MINUS =>
      if IsNumeral(e0) && !ops.isNaN(ops.unm(e0.nval)) then (g0, e0.(nval := ops.unm(e0.nval)))
      else
        var (g, e) := if IsNumeral(e0) then (g0, e0) else Exp2AnyReg(g0, e0);
        CodeUnary(g, true, e)
    case LEN =>
      var (g, e) := Exp2AnyReg(g0, e0);
      CodeUnary(g, false, e)
  }

  function Infix(g: Gen, op: BinOpr, e: AExp): (r: (Gen, AExp))
    ensures Grows(g, r.0)
  {
    match op
    case AND => GoIfTrue(g, e)
    case OR => GoIfFalse(g, e)
    case CONCAT => Exp2NextReg(g, e)
    case ARITH(_) =>
      if IsNumeral(e) then (g, e) else var (g1, e1, _) := Exp2RK(g, e); (g1, e1)
    case _ => var (g1, e1, _) := Exp2RK(g, e); (g1, e1)
  }

  function Posfix(ops: Ops, g0: Gen, op: BinOpr, e1: AExp, e2: AExp): (r: (Gen, AExp))
    ensures Grows(g0, r.0)
  {
    match op
    case AND =>
      var (g, e) := DischargeVars(g0, e2);
      var (g1, f) := ConcatLists(g, e.f, e1.f);
      (g1, e.(f := f))
    case OR =>
      var (g, e) := DischargeVars(g0, e2);
      var (g1, t) := ConcatLists(g, e.t, e1.t);
      (g1, e.(t := t))
    case CONCAT =>
      var (g, e) := Exp2Val(g0, e2);
      if e.k.VRELOCABLE? && 0 <= e.info < |g.code| && g.code[e.info].Concat? then
        var i := g.code[e.info];
        var g1 := FreeExp(g, e1);
        (g1.(code := g1.code[e.info := Concat(i.a, e1.info, i.c)]), e1.(k := VRELOCABLE, info := e.info))
      else
        var (g1, e') := Exp2NextReg(g, e);
        CodeConcat(g1, e1, e')
    case ARITH(a) => CodeArith(ops, g0, a, e1, e2)
    case EQUAL => CodeComp(g0, EQ, true, e1, e2)
    case NE => CodeComp(g0, EQ, false, e1, e2)
    case LESS => CodeComp(g0, LT, true, e1, e2)
    case LESSEQ => CodeComp(g0, LE, true, e1, e2)
    case GREATER => CodeComp(g0, LT, false, e1, e2)
    case GREATEREQ => CodeComp(g0, LE, false, e1, e2)
  }

  // ----- the calls the expression parser makes, by the shape of the expression -----

  function Compile(ops: Ops, g: Gen, e: Expr): (r: (Gen, AExp))
    ensures Grows(g, r.0)
    decreases e
  {
    match e
    case ENil => (g, InitExp(VNIL, 0))
    case ETrue => (g, InitExp(VTRUE, 0))
    case EFalse => (g, InitExp(VFALSE, 0))
    case ENum(n) => (g, InitExp(VKNUM, 0).(nval := n))
    case EStr(s) => var (g1, i) := AddK(g, Str(s)); (g1, InitExp(VK, i))
    case ELocal(r) => (g, InitExp(VLOCAL, r))
    case EUpval(i) => (g, InitExp(VUPVAL, i))
    case EGlobal(s) => var (g1, i) := AddK(g, Str(s)); (g1, InitExp(VGLOBAL, i))
    case EIndex(t, key) =>
      var (g1, e1) := Compile(ops, g, t);
      var (g2, e2) := Exp2AnyReg(g1, e1);
      var (g3, k1) := Compile(ops, g2, key);
      var (g4, k2) := Exp2Val(g3, k1);
      Indexed(g4, e2, k2)
    case EParen(e1) =>
      var (g1, d) := Compile(ops, g, e1);
      DischargeVars(g1, d)
    case EUn(op, e1) =>
      var (g1, d) := Compile(ops, g, e1);
      Prefix(ops, g1, op, d)
    case EBin(op, l, r) =>
      var (g1, e1) := Compile(ops, g, l);
      var (g2, e2) := Infix(g1, op, e1);
      var (g3, e3) := Compile(ops, g2, r);
      Posfix(ops, g3, op, e2, e3)
  }
}
