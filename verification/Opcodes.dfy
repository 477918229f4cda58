/** The instruction set used by expressions (lopcodes.h). The type parameter is what a
    jump carries: a signed offset in real code, a symbolic destination in the model of
    the code generator. */
module Opcodes {
  import opened LuaValues

  const NO_JUMP: int := -1
  const NO_REG: int := 255
  const BITRK: int := 256
  const MAXINDEXRK: int := 255
  const MAXARG_BX: int := 262143
  const MAXARG_SBX: int := 131071
  const MAXSTACK: int := 250

  datatype Instr<J> =
    | Move(a: int, b: int)
    | LoadK(a: int, bx: int)
    | LoadBool(a: int, v: bool, skip: bool)
    | LoadNil(a: int, b: int)
    | GetUpval(a: int, b: int)
    | GetGlobal(a: int, bx: int)
    | GetTable(a: int, b: int, c: int)
    | Arith(aop: ArithOp, a: int, b: int, c: int)
    | Unm(a: int, b: int)
    | Not(a: int, b: int)
    | Len(a: int, b: int)
    | Concat(a: int, b: int, c: int)
    | Jmp(j: J)
    | Cmp(cop: CmpOp, cond: bool, b: int, c: int)
    | Test(a: int, flag: bool)
    | TestSet(a: int, b: int, flag: bool)
    | Return(a: int, b: int)

  predicate IsK(rk: int) { rk >= BITRK }

  function RkAsK(i: int): int { i + BITRK }

  /** Instructions that are always followed by a jump (testTMode). */
  predicate IsTest<J>(i: Instr<J>) { i.Cmp? || i.Test? || i.TestSet? }

  /** Instructions whose only effect is to put a value in their register A, and whose
      register A is chosen after they are emitted. */
  predicate IsReloc<J>(i: Instr<J>) {
    i.GetUpval? || i.GetGlobal? || i.GetTable? || i.Arith? || i.Unm? || i.Not? || i.Len? || i.Concat?
  }

  function SetA<J>(i: Instr<J>, reg: int): Instr<J>
    requires IsReloc(i)
  {
    match i
    case GetUpval(_, b) => GetUpval(reg, b)
    case GetGlobal(_, bx) => GetGlobal(reg, bx)
    case GetTable(_, b, c) => GetTable(reg, b, c)
    case Arith(op, _, b, c) => Arith(op, reg, b, c)
    case Unm(_, b) => Unm(reg, b)
    case Not(_, b) => Not(reg, b)
    case Len(_, b) => Len(reg, b)
    case Concat(_, b, c) => Concat(reg, b, c)
  }
}
