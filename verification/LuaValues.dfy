/** Values, operators and expressions of the language: what an expression means,
    independently of how it is compiled (Lua 5.1 Reference Manual, sections 2.2 and 2.5). */
module LuaValues {
  import opened Common

  /** A number. Equality of numbers is identity of representations. */
  datatype Num = Num(repr: int)

  datatype Value =
    | Nil
    | Bool(b: bool)
    | Number(n: Num)
    | Str(s: string)
    | Object(id: int)

  predicate IsFalse(v: Value) {
    v == Nil || v == Bool(false)
  }

  datatype ArithOp = Add | Sub | Mul | Div | Mod | Pow

  datatype CmpOp = EQ | LT | LE

  /** The primitive operations, left abstract: every result below holds for any
      choice of them. `coerce...` are the slow paths taken when an operand is not a
      number; `None` is a run-time error. `junk(r, b, c, i)` is what concatenating registers
      b to c leaves behind in register i. */
  datatype Ops = Ops(
    arith: (ArithOp, Num, Num) -> Num,
    coerceArith: (ArithOp, Value, Value) -> Option<Value>,
    unm: Num -> Num,
    coerceUnm: Value -> Option<Value>,
    isNaN: Num -> bool,
    isZero: Num -> bool,
    eq: (Value, Value) -> bool,
    lt: (Value, Value) -> Option<bool>,
    le: (Value, Value) -> Option<bool>,
    len: Value -> Option<Value>,
    concat: (Value, Value) -> Option<Value>,
    index: (Value, Value) -> Option<Value>,
    junk: (Regs, int, int, int) -> Value)

  function ArithValue(ops: Ops, op: ArithOp, x: Value, y: Value): Option<Value> {
    if x.Number? && y.Number? then Some(Number(ops.arith(op, x.n, y.n)))
    else ops.coerceArith(op, x, y)
  }

  function UnmValue(ops: Ops, x: Value): Option<Value> {
    if x.Number? then Some(Number(ops.unm(x.n))) else ops.coerceUnm(x)
  }

  function Compare(ops: Ops, op: CmpOp, x: Value, y: Value): Option<bool> {
    match op
    case EQ => Some(ops.eq(x, y))
    case LT => ops.lt(x, y)
    case LE => ops.le(x, y)
  }

  /** Negating a number that is not NaN does not give NaN. */
  ghost predicate NegationKeepsNumbers(ops: Ops) {
    forall n: Num :: !ops.isNaN(n) ==> !ops.isNaN(ops.unm(n))
  }

  // ----- expressions -----

  datatype UnOpr = MINUS | NOT | LEN

  datatype BinOpr =
    | ARITH(op: ArithOp)
    | CONCAT
    | NE | EQUAL
    | LESS | LESSEQ | GREATER | GREATEREQ
    | AND | OR

  datatype Expr =
    | ENil | ETrue | EFalse
    | ENum(n: Num)
    | EStr(s: string)
    | ELocal(reg: nat)
    | EUpval(idx: nat)
    | EGlobal(name: string)
    | EIndex(table: Expr, key: Expr)
    | EParen(e: Expr)
    | EUn(uop: UnOpr, e: Expr)
    | EBin(bop: BinOpr, left: Expr, right: Expr)

  /** What an expression may read. `None` from `global` never happens for raw access. */
  datatype Env = Env(ops: Ops, k: seq<Value>, upval: int -> Value, global: Value -> Value)

  /** The registers of one activation; a register never written reads as nil. */
  type Regs = map<int, Value>

  function Get(r: Regs, i: int): Value {
    if i in r then r[i] else Nil
  }

  function NotValue(v: Value): Value {
    Bool(IsFalse(v))
  }

  function ToValue(o: Option<bool>): Option<Value> {
    match o
    case None => None
    case Some(b) => Some(Bool(b))
  }

  /** The meaning of a strict binary operator. */
  function StrictBin(ops: Ops, op: BinOpr, x: Value, y: Value): Option<Value>
    requires !op.AND? && !op.OR?
  {
    match op
    case ARITH(a) => ArithValue(ops, a, x, y)
    case CONCAT => ops.concat(x, y)
    case NE => Some(Bool(!ops.eq(x, y)))
    case EQUAL => Some(Bool(ops.eq(x, y)))
    case LESS => ToValue(ops.lt(x, y))
    case LESSEQ => ToValue(ops.le(x, y))
    case GREATER => ToValue(ops.lt(y, x))
    case GREATEREQ => ToValue(ops.le(y, x))
  }

  function StrictUn(ops: Ops, op: UnOpr, x: Value): Option<Value> {
    match op
    case MINUS => UnmValue(ops, x)
    case NOT => Some(NotValue(x))
    case LEN => ops.len(x)
  }

  /** The value of an expression whose local variables live in `r`; `None` is an error. */
  function Eval(env: Env, r: Regs, e: Expr): Option<Value> {
    match e
    case ENil => Some(Nil)
    case ETrue => Some(Bool(true))
    case EFalse => Some(Bool(false))
    case ENum(n) => Some(Number(n))
    case EStr(s) => Some(Str(s))
    case ELocal(i) => Some(Get(r, i))
    case EUpval(i) => Some(env.upval(i))
    case EGlobal(s) => Some(env.global(Str(s)))
    case EIndex(t, k) =>
      (match Eval(env, r, t)
       case None => None
       case Some(x) =>
         match Eval(env, r, k)
         case None => None
         case Some(y) => env.ops.index(x, y))
    case EParen(e1) => Eval(env, r, e1)
    case EUn(op, e1) =>
      (match Eval(env, r, e1)
       case None => None
       case Some(x) => StrictUn(env.ops, op, x))
    case EBin(op, e1, e2) =>
      match Eval(env, r, e1)
      case None => None
      case Some(x) =>
        if op.AND? then (if IsFalse(x) then Some(x) else Eval(env, r, e2))
        else if op.OR? then (if IsFalse(x) then Eval(env, r, e2) else Some(x))
        else
          match Eval(env, r, e2)
          case None => None
          case Some(y) => StrictBin(env.ops, op, x, y)
  }

  /** What arithmetic, concatenation and access mean for given operand values (section 2.5 of the
      manual). */
  lemma ArithMeanings(env: Env, r: Regs, a: Expr, b: Expr, x: Value, y: Value, op: ArithOp)
    requires Eval(env, r, a) == Some(x) && Eval(env, r, b) == Some(y)
    ensures Eval(env, r, EBin(ARITH(op), a, b)) ==
        if x.Number? && y.Number? then Some(Number(env.ops.arith(op, x.n, y.n))) else env.ops.coerceArith(op, x, y)
    ensures Eval(env, r, EUn(MINUS, a)) == if x.Number? then Some(Number(env.ops.unm(x.n))) else env.ops.coerceUnm(x)
    ensures Eval(env, r, EUn(LEN, a)) == env.ops.len(x)
    ensures Eval(env, r, EBin(CONCAT, a, b)) == env.ops.concat(x, y)
    ensures Eval(env, r, EIndex(a, b)) == env.ops.index(x, y)
  {
  }

  /** Only nil and false are false. */
  lemma LogicMeanings(env: Env, r: Regs, a: Expr, b: Expr, x: Value, y: Value)
    requires Eval(env, r, a) == Some(x) && Eval(env, r, b) == Some(y)
    ensures Eval(env, r, EUn(NOT, a)) == Some(Bool(x == Nil || x == Bool(false)))
    ensures Eval(env, r, EBin(AND, a, b)) == Some(if x == Nil || x == Bool(false) then x else y)
    ensures Eval(env, r, EBin(OR, a, b)) == Some(if x == Nil || x == Bool(false) then y else x)
  {
  }

  /** a > b is b < a, and a >= b is b <= a. */
  lemma CompareMeanings(env: Env, r: Regs, a: Expr, b: Expr, x: Value, y: Value)
    requires Eval(env, r, a) == Some(x) && Eval(env, r, b) == Some(y)
    ensures Eval(env, r, EBin(EQUAL, a, b)) == Some(Bool(env.ops.eq(x, y)))
    ensures Eval(env, r, EBin(NE, a, b)) == Some(Bool(!env.ops.eq(x, y)))
    ensures Eval(env, r, EBin(LESS, a, b)) ==
        match env.ops.lt(x, y) { case None => None case Some(t) => Some(Bool(t)) }
    ensures Eval(env, r, EBin(LESSEQ, a, b)) ==
        match env.ops.le(x, y) { case None => None case Some(t) => Some(Bool(t)) }
    ensures Eval(env, r, EBin(GREATER, a, b)) ==
        match env.ops.lt(y, x) { case None => None case Some(t) => Some(Bool(t)) }
    ensures Eval(env, r, EBin(GREATEREQ, a, b)) ==
        match env.ops.le(y, x) { case None => None case Some(t) => Some(Bool(t)) }
  {
  }

  /** A second operand is evaluated only when the first one does not decide, and is then skipped
      with its errors; otherwise an error in an operand is an error. */
  lemma OperandErrors(env: Env, r: Regs, op: BinOpr, a: Expr, b: Expr)
    ensures Eval(env, r, a) == None ==> Eval(env, r, EBin(op, a, b)) == None && Eval(env, r, EIndex(a, b)) == None
    ensures Eval(env, r, a).Some? && Eval(env, r, b) == None ==>
        Eval(env, r, EBin(op, a, b)) ==
          var x := Eval(env, r, a).value;
          var no := x == Nil || x == Bool(false);
          if op == AND && no then Some(x) else if op == OR && !no then Some(x) else None
  {
  }
}
