/** What an expression descriptor means: which outcome the code generated so far may
    have, and where the value of the expression is found in each of them. */
module ExpMeaning {
  import opened Common
  import opened LuaValues
  import opened Opcodes
  import opened PartialCode
  import opened CodeGen
  import opened GenInvariant

  // ----- structure -----

  ghost predicate Apart(a: seq<nat>, b: seq<nat>) {
    forall j :: j in a ==> j !in b
  }

  /** A patch list of conditional jumps, all still open. */
  ghost predicate CondList(c: Code, l: seq<nat>) {
    && NoDup(l)
    && AllOpen(c, Elems(l))
    && forall j :: j in l ==> Control(c, j).Some?
  }

  ghost predicate ListsOk(g: Gen, e: AExp) {
    && CondList(g.code, e.t) && CondList(g.code, e.f)
    && Apart(e.t, e.f) && Apart(g.jpc, e.t) && Apart(g.jpc, e.f)
  }

  ghost predicate KindOk(ops: Ops, g: Gen, e: AExp) {
    match e.k
    case VVOID => false
    case VK => 0 <= e.info < |g.consts|
    case VKNUM => !ops.isNaN(e.nval)
    case VLOCAL => 0 <= e.info < g.nactvar
    case VGLOBAL => 0 <= e.info < |g.consts|
    case VJMP =>
      && 1 <= e.info == |g.code| - 1
      && OpenAt(g.code, e.info) && g.code[e.info - 1].Cmp?
      && e.info !in e.t && e.info !in e.f && g.jpc == [] && g.lasttarget <= e.info - 1
    case VRELOCABLE =>
      && 0 <= e.info == |g.code| - 1
      && IsReloc(g.code[e.info]) && g.jpc == [] && g.lasttarget <= e.info
    case _ => true
  }

  /** A register operand: a local variable, or the temporary at `tmp`. */
  predicate RegAt(g: Gen, reg: int, tmp: int) {
    0 <= reg < g.nactvar || reg == tmp
  }

  predicate IsTemp(g: Gen, reg: int) {
    !IsK(reg) && reg >= g.nactvar
  }

  predicate ConstAt(g: Gen, rk: int) {
    IsK(rk) && 0 <= rk - BITRK < |g.consts| && rk - BITRK <= MAXINDEXRK
  }

  function TempCount(g: Gen, reg: int): int {
    if IsTemp(g, reg) then 1 else 0
  }

  /** Which registers the expression holds above `fr`, the first register that was free
      when its compilation began. Temporaries form a stack. */
  predicate Held(g: Gen, e: AExp, fr: int) {
    && g.nactvar <= fr < MAXSTACK
    && match e.k
       case VNONRELOC => RegAt(g, e.info, fr) && g.freereg == fr + TempCount(g, e.info)
       case VINDEXED =>
         && RegAt(g, e.info, fr)
         && (ConstAt(g, e.aux) || RegAt(g, e.aux, fr + TempCount(g, e.info)))
         && g.freereg == fr + TempCount(g, e.info) + TempCount(g, e.aux)
       case VRELOCABLE =>
         && g.freereg == fr
         && (0 <= e.info < |g.code| && g.code[e.info].Concat? ==> fr == g.code[e.info].b <= g.code[e.info].c)
       case _ => g.freereg == fr
  }

  ghost predicate Inv(ops: Ops, g: Gen, e: AExp, fr: int) {
    WFGen(g) && g.ok && ListsOk(g, e) && KindOk(ops, g, e) && Held(g, e, fr)
  }

  // ----- frame -----

  predicate MyJump(e: AExp, j: nat) {
    j in e.t || j in e.f || (e.k.VJMP? && j == e.info)
  }

  /** Open jumps waiting for somebody else. */
  ghost predicate Outer(g: Gen, e: AExp, j: nat) {
    OpenAt(g.code, j) && j !in g.jpc && !MyJump(e, j)
  }

  ghost predicate Frame(g: Gen, e: AExp, g': Gen, e': AExp) {
    forall j {:trigger Outer(g, e, j)} {:trigger Outer(g', e', j)} :: Outer(g, e, j) ==>
      Outer(g', e', j) && Control(g'.code, j) == Control(g.code, j)
  }

  // ----- meaning -----

  ghost predicate Same(r0: Regs, r1: Regs, fr: int, ex: int) {
    forall i :: i < fr && i != ex ==> Get(r0, i) == Get(r1, i)
  }

  /** How the code was entered: by a run that never got here, or with registers r0 and
      the expression then having value v (None: evaluating it is an error). Nothing is
      claimed about runs in context Any. */
  datatype Ctx = Any | Dead(o: Outcome) | Live(r0: Regs, v: Option<Value>)

  ghost function CodeOutcome(g: Gen, e: AExp, env: Env, r: Regs): Outcome {
    if e.k.VRELOCABLE? && 0 <= e.info < |g.code| then RunFrom(g.code[..e.info], env, 0, r)
    else At(g, env, r)
  }

  /** The value of the expression when control has just passed its code. */
  ghost function ValueHere(g: Gen, e: AExp, env: Env, r: Regs): Option<Value> {
    match e.k
    case VNIL => Some(Nil)
    case VTRUE => Some(Bool(true))
    case VFALSE => Some(Bool(false))
    case VK => Some(Const(env, e.info))
    case VKNUM => Some(Number(e.nval))
    case VLOCAL => Some(Get(r, e.info))
    case VNONRELOC => Some(Get(r, e.info))
    case VUPVAL => Some(env.upval(e.info))
    case VGLOBAL => Some(env.global(Const(env, e.info)))
    case VINDEXED => env.ops.index(Get(r, e.info), RK(env, r, e.aux))
    case VRELOCABLE => if 0 <= e.info < |g.code| && IsReloc(g.code[e.info]) then RelocValue(env, g.code[e.info], r)
        else None
    case VJMP => Some(Bool(false))
    case VVOID => None
  }

  /** The value delivered by leaving through jump j of a true (b) or false list. */
  ghost predicate Delivers(c: Code, j: nat, r: Regs, v: Option<Value>, b: bool) {
    && v.Some?
    && IsFalse(v.value) == !b
    && match Control(c, j)
       case Some(TestSet(_, reg, _)) => v.value == Get(r, reg)
       case _ => v.value == Bool(b)
  }

  ghost predicate OuterOutcome(g: Gen, e: AExp, o: Outcome) {
    o.Fail? || o.Done? || (o.Exit? && Outer(g, e, o.at))
  }

  ghost predicate Sem(g: Gen, e: AExp, fr: int, ex: int, env: Env, r: Regs, x: Ctx) {
    var out := CodeOutcome(g, e, env, r);
    match x
    case Any => true
    case Dead(o) => out == o && OuterOutcome(g, e, o)
    case Live(r0, v) =>
      match out
      case Reach(r1) => Same(r0, r1, fr, ex) && v == ValueHere(g, e, env, r1)
      case Exit(j, r1) =>
        && Same(r0, r1, fr, ex)
        && (if j in e.t then Delivers(g.code, j, r1, v, true)
            else if j in e.f then Delivers(g.code, j, r1, v, false)
            else e.k.VJMP? && j == e.info && v == Some(Bool(true)))
      case Fail => v.None?
      case _ => false
  }

  lemma SemAny(g: Gen, e: AExp, fr: int, ex: int, env: Env, r: Regs)
    ensures Sem(g, e, fr, ex, env, r, Any)
  {
  }

  /** Registers never used yet are nil when a function starts. */
  ghost predicate Clean(g: Gen, r: Regs) {
    forall i :: i >= g.nactvar ==> Get(r, i) == Nil
  }

  // ----- dischargevars -----

  lemma EmitReloc(ops: Ops, g: Gen, e: AExp, i: AInstr, fr: int)
    requires WFGen(g) && g.ok && ListsOk(g, e) && IsReloc(i) && !e.k.VJMP?
    requires g.nactvar <= fr == g.freereg < MAXSTACK
    requires i.Concat? ==> fr == i.b <= i.c
    requires Emit(g, i).ok
    ensures var g' := Emit(g, i);
            var e' := e.(info := |g.code|, k := VRELOCABLE);
            Inv(ops, g', e', fr) && Frame(g, e, g', e')
  {
    EmitWF(g, i);
    var g' := Emit(g, i);
    var e' := e.(info := |g.code|, k := VRELOCABLE);
    forall j | j in e.t || j in e.f ensures OpenAt(g'.code, j) && Control(g'.code, j) == Control(g.code, j) {
      assert j in Elems(e.t) || j in Elems(e.f);
      assert OpenAt(g.code, j);
    }
  }

  /** Emitting a relocatable instruction that computes the expression keeps its meaning. */
  lemma EmitRelocSem(ops: Ops, g: Gen, e: AExp, i: AInstr, fr: int, ex: int, env: Env, r: Regs, x: Ctx)
    requires WFGen(g) && g.ok && ListsOk(g, e) && IsReloc(i) && !e.k.VJMP? && !e.k.VRELOCABLE?
    requires Sem(g, e, fr, ex, env, r, x)
    requires forall r1 :: ValueHere(g, e, env, r1) == RelocValue(env, i, r1)
    ensures Sem(Emit(g, i), e.(info := |g.code|, k := VRELOCABLE), fr, ex, env, r, x)
  {
    hide DischargeJpc, Patch, RunFrom, ExecPlain;
    EmitWF(g, i);
    EmitRun(g, i, env, r);
    var g' := Emit(g, i);
    forall j | j in e.t || j in e.f ensures Control(g'.code, j) == Control(g.code, j) {
      assert j in Elems(e.t) || j in Elems(e.f);
      assert OpenAt(g.code, j);
    }
  }

  predicate IsVar(k: Kind) {
    k.VLOCAL? || k.VUPVAL? || k.VGLOBAL? || k.VINDEXED?
  }

  lemma DischargeVarsOk(ops: Ops, g: Gen, e: AExp, fr: int, ex: int, env: Env, r: Regs, x: Ctx)
    requires Inv(ops, g, e, fr) && Sem(g, e, fr, ex, env, r, x)
    requires DischargeVars(g, e).0.ok
    ensures var (g', e') := DischargeVars(g, e);
            && Inv(ops, g', e', fr) && Sem(g', e', fr, ex, env, r, x) && Frame(g, e, g', e')
            && !IsVar(e'.k) && e'.t == e.t && e'.f == e.f && (!IsVar(e.k) ==> g' == g && e' == e)
            && (IsVar(e.k) ==> e'.k.VNONRELOC? || e'.k.VRELOCABLE?)
  {
    hide Emit, DischargeJpc, RunFrom;
    match e.k
    case VUPVAL =>
      EmitReloc(ops, g, e, GetUpval(0, e.info), fr);
      EmitRelocSem(ops, g, e, GetUpval(0, e.info), fr, ex, env, r, x);
    case VGLOBAL =>
      EmitReloc(ops, g, e, GetGlobal(0, e.info), fr);
      EmitRelocSem(ops, g, e, GetGlobal(0, e.info), fr, ex, env, r, x);
    case VINDEXED =>
      DischargeIndexed(ops, g, e, fr, ex, env, r, x);
    case _ =>
  }

  lemma FreedSem(g: Gen, e: AExp, fr: int, ex: int, env: Env, r: Regs, x: Ctx, freereg: int)
    requires Sem(g, e, fr, ex, env, r, x)
    ensures Sem(g.(freereg := freereg), e, fr, ex, env, r, x)
  {
    hide RunFrom;
  }

  lemma DischargeIndexed(ops: Ops, g: Gen, e: AExp, fr: int, ex: int, env: Env, r: Regs, x: Ctx)
    requires Inv(ops, g, e, fr) && Sem(g, e, fr, ex, env, r, x) && e.k.VINDEXED?
    requires DischargeVars(g, e).0.ok
    ensures var (g', e') := DischargeVars(g, e);
            && Inv(ops, g', e', fr) && Sem(g', e', fr, ex, env, r, x) && Frame(g, e, g', e')
            && e'.k.VRELOCABLE? && e'.t == e.t && e'.f == e.f
  {
    var h := FreeReg(FreeReg(g, e.aux), e.info);
    assert h == g.(freereg := fr);
    FreedSem(g, e, fr, ex, env, r, x, fr);
    var i: AInstr := GetTable(0, e.info, e.aux);
    assert WFGen(h) && ListsOk(h, e);
    assert forall r1 :: ValueHere(h, e, env, r1) == RelocValue(env, i, r1);
    hide RunFrom, Emit, Sem, WFGen, ListsOk, ValueHere;
    EmitReloc(ops, h, e, i, fr);
    EmitRelocSem(ops, h, e, i, fr, ex, env, r, x);
  }
}
