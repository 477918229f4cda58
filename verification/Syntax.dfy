/** Reading expressions (lparser.c): tokens, the priority table, and what subexpr reads. */
module Syntax {
  import opened Common
  import opened LuaValues

  datatype Token =
    | NUMBER(n: Num) | STRING(s: string) | NAME(s: string)
    | TNIL | TTRUE | TFALSE | TNOT | TAND | TOR | TRETURN
    | PLUS | DASH | STAR | SLASH | PERCENT | CARET | HASH | DOTDOT
    | EQEQ | NOTEQ | LESSTHAN | LESSEQUAL | GREATERTHAN | GREATEREQUAL
    | LPAREN | RPAREN | LBRACKET | RBRACKET | DOT | COMMA | SEMICOLON | COLON | LBRACE
    | BLOCKEND      // else, elseif, end, until
    | OTHER(id: int)

  const UNARY_PRIORITY: nat := 8
  const LUAI_MAXCCALLS: nat := 200

  /** The names in scope: active local variables in order of declaration, and the
      variables of enclosing functions that this function refers to. */
  datatype Scope = Scope(locals: seq<string>, upvals: seq<string>)

  function GetUnOpr(t: Token): Option<UnOpr> {
    match t
    case TNOT => Some(NOT)
    case DASH => Some(MINUS)
    case HASH => Some(LEN)
    case _ => None
  }

  function GetBinOpr(t: Token): Option<BinOpr> {
    match t
    case PLUS => Some(ARITH(Add))
    case DASH => Some(ARITH(Sub))
    case STAR => Some(ARITH(Mul))
    case SLASH => Some(ARITH(Div))
    case PERCENT => Some(ARITH(Mod))
    case CARET => Some(ARITH(Pow))
    case DOTDOT => Some(CONCAT)
    case NOTEQ => Some(NE)
    case EQEQ => Some(EQUAL)
    case LESSTHAN => Some(LESS)
    case LESSEQUAL => Some(LESSEQ)
    case GREATERTHAN => Some(GREATER)
    case GREATEREQUAL => Some(GREATEREQ)
    case TAND => Some(AND)
    case TOR => Some(OR)
    case _ => None
  }

  /** priority[op].left */
  function Left(op: BinOpr): nat {
    match op
    case ARITH(Add) => 6
    case ARITH(Sub) => 6
    case ARITH(Pow) => 10
    case ARITH(_) => 7
    case CONCAT => 5
    case AND => 2
    case OR => 1
    case _ => 3
  }

  /** priority[op].right */
  function Right(op: BinOpr): nat {
    match op
    case ARITH(Pow) => 9
    case CONCAT => 4
    case _ => Left(op)
  }

  /** searchvar: the innermost declaration of the name. */
  function SearchVar(locals: seq<string>, s: string): (i: int)
    ensures -1 <= i < |locals|
    ensures i >= 0 ==> locals[i] == s && s !in locals[i + 1..]
    ensures i == -1 ==> s !in locals
  {
    if locals == [] then -1
    else if locals[|locals| - 1] == s then
      assert locals[|locals|..] == [];
      |locals| - 1
    else
      var front := locals[..|locals| - 1];
      var i := SearchVar(front, s);
      assert locals == front + [locals[|locals| - 1]];
      assert locals[i + 1..] == front[i + 1..] + [locals[|locals| - 1]];
      i
  }

  /** singlevar. */
  function Resolve(sc: Scope, s: string): Expr {
    if SearchVar(sc.locals, s) >= 0 then ELocal(SearchVar(sc.locals, s))
    else if SearchVar(sc.upvals, s) >= 0 then EUpval(SearchVar(sc.upvals, s))
    else EGlobal(s)
  }

  type Parsed = Option<(Expr, seq<Token>)>

  /** subexpr: one expression whose operators bind tighter than `limit`, and the tokens
      after it. `level` counts the nested calls. */
  function ParseSub(sc: Scope, ts: seq<Token>, limit: nat, level: nat): (p: Parsed)
    ensures p.Some? ==> |p.value.1| < |ts|
    decreases |ts|, 4
  {
    if level >= LUAI_MAXCCALLS || ts == [] then None
    else
      match ParseOperand(sc, ts, level + 1)
      case None => None
      case Some((x, rest)) => ParseLoop(sc, x, rest, limit, level + 1)
  }

  /** The start of subexpr: simpleexp, or a unary operator and its operand. */
  function ParseOperand(sc: Scope, ts: seq<Token>, level: nat): (p: Parsed)
    requires ts != []
    ensures p.Some? ==> |p.value.1| < |ts|
    decreases |ts|, 3
  {
    match GetUnOpr(ts[0])
    case None => ParseSimple(sc, ts, level)
    case Some(op) =>
      match ParseSub(sc, ts[1..], UNARY_PRIORITY, level)
      case None => None
      case Some((x, rest)) => Some((EUn(op, x), rest))
  }

  /** The loop of subexpr: x has been read. */
  function ParseLoop(sc: Scope, x: Expr, ts: seq<Token>, limit: nat, level: nat): (p: Parsed)
    ensures p.Some? ==> |p.value.1| <= |ts|
    decreases |ts|, 5
  {
    if ts == [] then Some((x, ts))
    else
      match GetBinOpr(ts[0])
      case None => Some((x, ts))
      case Some(op) =>
        if Left(op) <= limit then Some((x, ts))
        else
          match ParseSub(sc, ts[1..], Right(op), level)
          case None => None
          case Some((y, rest)) => ParseLoop(sc, EBin(op, x, y), rest, limit, level)
  }

  /** simpleexp. */
  function ParseSimple(sc: Scope, ts: seq<Token>, level: nat): (p: Parsed)
    requires ts != []
    ensures p.Some? ==> |p.value.1| < |ts|
    decreases |ts|, 2
  {
    match ts[0]
    case NUMBER(n) => Some((ENum(n), ts[1..]))
    case STRING(s) => Some((EStr(s), ts[1..]))
    case TNIL => Some((ENil, ts[1..]))
    case TTRUE => Some((ETrue, ts[1..]))
    case TFALSE => Some((EFalse, ts[1..]))
    case _ =>
      match ParsePrefix(sc, ts, level)
      case None => None
      case Some((x, rest)) => ParseSuffixes(sc, x, rest, level)
  }

  /** prefixexp. */
  function ParsePrefix(sc: Scope, ts: seq<Token>, level: nat): (p: Parsed)
    requires ts != []
    ensures p.Some? ==> |p.value.1| < |ts|
    decreases |ts|, 1
  {
    match ts[0]
    case NAME(s) => Some((Resolve(sc, s), ts[1..]))
    case LPAREN =>
      (match ParseSub(sc, ts[1..], 0, level)
       case None => None
       case Some((x, rest)) => if rest != [] && rest[0].RPAREN? then Some((EParen(x), rest[1..])) else None)
    case _ => None
  }

  /** The loop of primaryexp; function calls are outside this model. */
  function ParseSuffixes(sc: Scope, x: Expr, ts: seq<Token>, level: nat): (p: Parsed)
    ensures p.Some? ==> |p.value.1| <= |ts|
    decreases |ts|, 2
  {
    if ts == [] then Some((x, ts))
    else
      match ts[0]
      case DOT => if |ts| >= 2 && ts[1].NAME? then ParseSuffixes(sc, EIndex(x, EStr(ts[1].s)), ts[2..], level) else None
      case LBRACKET =>
        (match ParseSub(sc, ts[1..], 0, level)
         case None => None
         case Some((k, rest)) =>
           if rest != [] && rest[0].RBRACKET? then ParseSuffixes(sc, EIndex(x, k), rest[1..], level) else None)
      case LPAREN => None
      case STRING(_) => None
      case LBRACE => None
      case COLON => None
      case _ => Some((x, ts))
  }

  type ParsedList = Option<(seq<Expr>, seq<Token>)>

  /** The loop of explist1: es has been read. */
  function ParseMore(sc: Scope, es: seq<Expr>, ts: seq<Token>, level: nat): (p: ParsedList)
    ensures p.Some? ==> |p.value.0| >= |es| && p.value.0[..|es|] == es
    decreases |ts|
  {
    if ts == [] || !ts[0].COMMA? then Some((es, ts))
    else
      match ParseSub(sc, ts[1..], 0, level)
      case None => None
      case Some((x, rest)) => ParseMore(sc, es + [x], rest, level)
  }

  /** retstat. */
  function ParseReturn(sc: Scope, ts: seq<Token>, level: nat): ParsedList {
    if ts == [] || !ts[0].TRETURN? then None
    else if |ts| == 1 || ts[1].BLOCKEND? || ts[1].SEMICOLON? then Some(([], ts[1..]))
    else
      match ParseSub(sc, ts[1..], 0, level)
      case None => None
      case Some((x, rest)) => ParseMore(sc, [x], rest, level)
  }

  // ----- printing -----

  function UnToken(op: UnOpr): (t: Token)
    ensures GetUnOpr(t) == Some(op)
  {
    match op
    case NOT => TNOT
    case MINUS => DASH
    case LEN => HASH
  }

  function BinToken(op: BinOpr): (t: Token)
    ensures GetBinOpr(t) == Some(op)
  {
    match op
    case ARITH(Add) => PLUS
    case ARITH(Sub) => DASH
    case ARITH(Mul) => STAR
    case ARITH(Div) => SLASH
    case ARITH(Mod) => PERCENT
    case ARITH(Pow) => CARET
    case CONCAT => DOTDOT
    case NE => NOTEQ
    case EQUAL => EQEQ
    case LESS => LESSTHAN
    case LESSEQ => LESSEQUAL
    case GREATER => GREATERTHAN
    case GREATEREQ => GREATEREQUAL
    case AND => TAND
    case OR => TOR
  }

  /** Whether an expression needs no parentheses between an operator of right priority
      `limit` and one of left priority `next`; 0 stands for no operator. */
  predicate Bare(e: Expr, limit: nat, next: nat) {
    match e
    case EBin(op, _, _) => Left(op) > limit && next <= Right(op)
    case EUn(_, _) => next <= UNARY_PRIORITY
    case _ => true
  }

  predicate IsPrefix(e: Expr) {
    e.ELocal? || e.EUpval? || e.EGlobal? || e.EIndex? || e.EParen?
  }

  /** Every variable has a name that is not shadowed. */
  predicate Nameable(sc: Scope, e: Expr) {
    match e
    case ELocal(i) => i < |sc.locals| && SearchVar(sc.locals, sc.locals[i]) == i
    case EUpval(i) => i < |sc.upvals| && SearchVar(sc.upvals, sc.upvals[i]) == i
        && SearchVar(sc.locals, sc.upvals[i]) < 0
    case EGlobal(s) => SearchVar(sc.locals, s) < 0 && SearchVar(sc.upvals, s) < 0
    case EIndex(t, k) => Nameable(sc, t) && Nameable(sc, k)
    case EParen(x) => Nameable(sc, x)
    case EUn(_, x) => Nameable(sc, x)
    case EBin(_, a, b) => Nameable(sc, a) && Nameable(sc, b)
    case _ => true
  }

  function PrintBare(sc: Scope, e: Expr, limit: nat, next: nat): seq<Token>
    requires Nameable(sc, e)
    decreases e, 0
  {
    match e
    case ENil => [TNIL]
    case ETrue => [TTRUE]
    case EFalse => [TFALSE]
    case ENum(n) => [NUMBER(n)]
    case EStr(s) => [STRING(s)]
    case ELocal(i) => [NAME(sc.locals[i])]
    case EUpval(i) => [NAME(sc.upvals[i])]
    case EGlobal(s) => [NAME(s)]
    case EIndex(t, k) => PrintPrefix(sc, t) + [LBRACKET] + Print(sc, k, 0, 0) + [RBRACKET]
    case EParen(x) => [LPAREN] + Print(sc, x, 0, 0) + [RPAREN]
    case EUn(op, x) => [UnToken(op)] + Print(sc, x, UNARY_PRIORITY, next)
    case EBin(op, a, b) => Print(sc, a, limit, Left(op)) + [BinToken(op)] + Print(sc, b, Right(op), next)
  }

  /** Parentheses wherever the priority table needs them. */
  function Print(sc: Scope, e: Expr, limit: nat, next: nat): seq<Token>
    requires Nameable(sc, e)
    decreases e, 1
  {
    if Bare(e, limit, next) then PrintBare(sc, e, limit, next) else [LPAREN] + PrintBare(sc, e, 0, 0) + [RPAREN]
  }

  function PrintPrefix(sc: Scope, e: Expr): seq<Token>
    requires Nameable(sc, e)
    decreases e, 1
  {
    if IsPrefix(e) then PrintBare(sc, e, 0, 0) else [LPAREN] + PrintBare(sc, e, 0, 0) + [RPAREN]
  }

  /** The same tree with the parentheses that printing adds. */
  function MarkBare(e: Expr, limit: nat, next: nat): Expr
    decreases e, 0
  {
    match e
    case EIndex(t, k) => EIndex(MarkPrefix(t), Mark(k, 0, 0))
    case EParen(x) => EParen(Mark(x, 0, 0))
    case EUn(op, x) => EUn(op, Mark(x, UNARY_PRIORITY, next))
    case EBin(op, a, b) => EBin(op, Mark(a, limit, Left(op)), Mark(b, Right(op), next))
    case _ => e
  }

  function Mark(e: Expr, limit: nat, next: nat): Expr
    decreases e, 1
  {
    if Bare(e, limit, next) then MarkBare(e, limit, next) else EParen(MarkBare(e, 0, 0))
  }

  function MarkPrefix(e: Expr): Expr
    decreases e, 1
  {
    if IsPrefix(e) then MarkBare(e, 0, 0) else EParen(MarkBare(e, 0, 0))
  }

  /** The tree without any parentheses. */
  function Strip(e: Expr): Expr {
    match e
    case EIndex(t, k) => EIndex(Strip(t), Strip(k))
    case EParen(x) => Strip(x)
    case EUn(op, x) => EUn(op, Strip(x))
    case EBin(op, a, b) => EBin(op, Strip(a), Strip(b))
    case _ => e
  }

  function Max(a: nat, b: nat): nat { if a < b then b else a }

  /** How many calls of subexpr reading the printed expression nests. */
  function DepthBare(e: Expr, limit: nat, next: nat): nat
    decreases e, 0
  {
    match e
    case EIndex(t, k) => Max(1 + DepthPrefix(t), 1 + Depth(k, 0, 0))
    case EParen(x) => 1 + Depth(x, 0, 0)
    case EUn(_, x) => 1 + Depth(x, UNARY_PRIORITY, next)
    case EBin(op, a, b) => Max(Depth(a, limit, Left(op)), 1 + Depth(b, Right(op), next))
    case _ => 1
  }

  function Depth(e: Expr, limit: nat, next: nat): nat
    decreases e, 1
  {
    if Bare(e, limit, next) then DepthBare(e, limit, next) else 1 + DepthBare(e, 0, 0)
  }

  /** ... by prefixexp and primaryexp. */
  function DepthPrefix(e: Expr): nat
    decreases e, 1
  {
    match e
    case ELocal(_) => 0
    case EUpval(_) => 0
    case EGlobal(_) => 0
    case EIndex(t, k) => Max(DepthPrefix(t), Depth(k, 0, 0))
    case EParen(x) => Depth(x, 0, 0)
    case _ => DepthBare(e, 0, 0)
  }

  /** The tokens after an expression neither extend it as a suffix nor, as an operator,
      bind tighter than `next`. */
  predicate Follows(rest: seq<Token>, next: nat) {
    rest != [] ==>
      && !rest[0].DOT? && !rest[0].LBRACKET? && !rest[0].LPAREN? && !rest[0].STRING? && !rest[0].LBRACE? &&
          !rest[0].COLON?
      && (GetBinOpr(rest[0]).Some? ==> Left(GetBinOpr(rest[0]).value) <= next)
  }

  /** primaryexp. */
  function ParsePrimary(sc: Scope, ts: seq<Token>, level: nat): Parsed {
    if ts == [] then None
    else
      match ParsePrefix(sc, ts, level)
      case None => None
      case Some((x, rest)) => ParseSuffixes(sc, x, rest, level)
  }

  /** After an expression nothing more is read by a loop whose limit is high enough. */
  lemma LoopStops(sc: Scope, x: Expr, rest: seq<Token>, limit: nat, level: nat)
    requires Follows(rest, limit)
    ensures ParseLoop(sc, x, rest, limit, level) == Some((x, rest))
        && ParseSuffixes(sc, x, rest, level) == Some((x, rest))
  {
  }

  lemma {:induction false} PrefixStart(sc: Scope, e: Expr)
    requires Nameable(sc, e)
    ensures PrintPrefix(sc, e) != [] && (PrintPrefix(sc, e)[0].NAME? || PrintPrefix(sc, e)[0].LPAREN?)
  {
    if e.EIndex? { PrefixStart(sc, e.table); }
  }

  // ----- one step of each reading function -----

  function AfterUnary(sc: Scope, op: UnOpr, p: Parsed, limit: nat, level: nat): Parsed {
    if p.None? then None else ParseLoop(sc, EUn(op, p.value.0), p.value.1, limit, level)
  }

  function AfterBinary(sc: Scope, x: Expr, op: BinOpr, p: Parsed, limit: nat, level: nat): Parsed {
    if p.None? then None else ParseLoop(sc, EBin(op, x, p.value.0), p.value.1, limit, level)
  }

  function AfterIndex(sc: Scope, x: Expr, p: Parsed, level: nat): Parsed {
    if p.Some? && p.value.1 != [] && p.value.1[0].RBRACKET?
    then ParseSuffixes(sc, EIndex(x, p.value.0), p.value.1[1..], level) else None
  }

  function AfterParen(sc: Scope, p: Parsed, level: nat): Parsed {
    if p.Some? && p.value.1 != [] && p.value.1[0].RPAREN?
    then ParseSuffixes(sc, EParen(p.value.0), p.value.1[1..], level) else None
  }

  lemma SubUnary(sc: Scope, op: UnOpr, ts: seq<Token>, limit: nat, level: nat)
    ensures ParseSub(sc, [UnToken(op)] + ts, limit, level) ==
            if level >= LUAI_MAXCCALLS then None
            else AfterUnary(sc, op, ParseSub(sc, ts, UNARY_PRIORITY, level + 1), limit, level + 1)
  {
    var all := [UnToken(op)] + ts;
    assert all[0] == UnToken(op) && all[1..] == ts;
  }

  lemma LoopBinary(sc: Scope, x: Expr, op: BinOpr, ts: seq<Token>, limit: nat, level: nat)
    requires Left(op) > limit
    ensures ParseLoop(sc, x, [BinToken(op)] + ts, limit, level) ==
            AfterBinary(sc, x, op, ParseSub(sc, ts, Right(op), level), limit, level)
  {
    var all := [BinToken(op)] + ts;
    assert all[0] == BinToken(op) && all[1..] == ts;
  }

  lemma SuffixIndex(sc: Scope, x: Expr, ts: seq<Token>, level: nat)
    ensures ParseSuffixes(sc, x, [LBRACKET] + ts, level) ==
            AfterIndex(sc, x, ParseSub(sc, ts, 0, level), level)
  {
    var all := [LBRACKET] + ts;
    assert all[0] == LBRACKET && all[1..] == ts;
  }

  lemma PrimaryParen(sc: Scope, ts: seq<Token>, level: nat)
    ensures ParsePrimary(sc, [LPAREN] + ts, level) ==
            AfterParen(sc, ParseSub(sc, ts, 0, level), level)
  {
    hide ParseSub, ParseSuffixes;
    var all := [LPAREN] + ts;
    assert all[0] == LPAREN && all[1..] == ts;
  }

  lemma SubPrimary(sc: Scope, ts: seq<Token>, limit: nat, level: nat)
    requires ts != [] && (ts[0].NAME? || ts[0].LPAREN?)
    ensures ParseSub(sc, ts, limit, level) ==
            if level >= LUAI_MAXCCALLS || ParsePrimary(sc, ts, level + 1).None? then None
            else ParseLoop(sc, ParsePrimary(sc, ts, level + 1).value.0, ParsePrimary(sc, ts, level + 1).value.1, limit,
                level + 1)
  {
    if level < LUAI_MAXCCALLS {
      assert ParseOperand(sc, ts, level + 1) == ParsePrimary(sc, ts, level + 1);
    }
  }

  predicate IsLeaf(e: Expr) {
    e.ENil? || e.ETrue? || e.EFalse? || e.ENum? || e.EStr?
  }

  lemma SubLeaf(sc: Scope, e: Expr, rest: seq<Token>, limit: nat, next: nat, level: nat)
    requires IsLeaf(e)
    ensures ParseSub(sc, PrintBare(sc, e, limit, next) + rest, limit, level) ==
            if level >= LUAI_MAXCCALLS then None else ParseLoop(sc, e, rest, limit, level + 1)
  {
    var all := PrintBare(sc, e, limit, next) + rest;
    assert all[1..] == rest;
    if level < LUAI_MAXCCALLS {
      assert ParseOperand(sc, all, level + 1) == Some((e, rest));
    }
  }

  lemma PrimaryName(sc: Scope, e: Expr, rest: seq<Token>, level: nat)
    requires Nameable(sc, e) && (e.ELocal? || e.EUpval? || e.EGlobal?)
    ensures ParsePrimary(sc, PrintBare(sc, e, 0, 0) + rest, level) == ParseSuffixes(sc, e, rest, level)
  {
    hide ParseSuffixes;
    var all := PrintBare(sc, e, 0, 0) + rest;
    assert all[1..] == rest;
  }

  // ----- reading what was printed -----

  /** What is printed for a variable, an index expression or a parenthesized expression is
      read as one primary expression. */
  lemma {:induction false} ReadPrefixBare(sc: Scope, e: Expr, rest: seq<Token>, level: nat)
    requires Nameable(sc, e) && IsPrefix(e) && level <= LUAI_MAXCCALLS
    ensures ParsePrimary(sc, PrintBare(sc, e, 0, 0) + rest, level) ==
            if level + DepthPrefix(e) <= LUAI_MAXCCALLS then ParseSuffixes(sc, MarkBare(e, 0, 0), rest, level) else None
    decreases e, 1
  {
    hide ParsePrimary, ParseSuffixes, ParseSub, ParseLoop;
    if e.EIndex? {
      hide Print, Mark, Depth, PrintPrefix, MarkPrefix, DepthPrefix;
      ReadIndex(sc, e.table, e.key, rest, level);
    } else if e.EParen? {
      ReadParen(sc, e.e, rest, level);
      assert PrintBare(sc, e, 0, 0) + rest == [LPAREN] + PrintBare(sc, e.e, 0, 0) + [RPAREN] + rest;
    } else {
      PrimaryName(sc, e, rest, level);
    }
  }

  lemma {:induction false} ReadIndex(sc: Scope, t: Expr, k: Expr, rest: seq<Token>, level: nat)
    requires Nameable(sc, t) && Nameable(sc, k) && level <= LUAI_MAXCCALLS
    ensures ParsePrimary(sc, PrintPrefix(sc, t) + [LBRACKET] + Print(sc, k, 0, 0) + [RBRACKET] + rest, level) ==
            if level + Max(DepthPrefix(t), Depth(k, 0, 0)) <= LUAI_MAXCCALLS
            then ParseSuffixes(sc, EIndex(MarkPrefix(t), Mark(k, 0, 0)), rest, level) else None
    decreases EIndex(t, k), 0
  {
    hide ParsePrimary, ParseSuffixes, ParseSub, ParseLoop, Print, Mark, Depth, PrintPrefix, MarkPrefix, DepthPrefix;
    var rest2 := [RBRACKET] + rest;
    var tsk := Print(sc, k, 0, 0) + rest2;
    assert PrintPrefix(sc, t) + [LBRACKET] + Print(sc, k, 0, 0) + [RBRACKET] + rest == PrintPrefix(sc, t)
        + ([LBRACKET] + tsk);
    ReadPrefix(sc, t, [LBRACKET] + tsk, level);
    SuffixIndex(sc, MarkPrefix(t), tsk, level);
    ReadBack(sc, k, 0, 0, rest2, level);
    LoopStops(sc, Mark(k, 0, 0), rest2, 0, level + 1);
    assert rest2[0] == RBRACKET && rest2[1..] == rest;
  }

  lemma {:induction false} ReadPrefix(sc: Scope, e: Expr, rest: seq<Token>, level: nat)
    requires Nameable(sc, e) && level <= LUAI_MAXCCALLS
    ensures ParsePrimary(sc, PrintPrefix(sc, e) + rest, level) ==
            if level + DepthPrefix(e) <= LUAI_MAXCCALLS then ParseSuffixes(sc, MarkPrefix(e), rest, level) else None
    decreases e, 5
  {
    hide ParsePrimary, ParseSuffixes;
    if IsPrefix(e) {
      ReadPrefixBare(sc, e, rest, level);
    } else {
      ReadParen(sc, e, rest, level);
    }
  }

  /** '(' e ')' where a primary expression is expected. */
  lemma {:induction false} ReadParen(sc: Scope, e: Expr, rest: seq<Token>, level: nat)
    requires Nameable(sc, e)
    ensures var ts := [LPAREN] + PrintBare(sc, e, 0, 0) + [RPAREN] + rest;
            ParsePrimary(sc, ts, level) ==
            if level + DepthBare(e, 0, 0) <= LUAI_MAXCCALLS
                then ParseSuffixes(sc, EParen(MarkBare(e, 0, 0)), rest, level) else None
    decreases e, 4
  {
    hide ParsePrimary, ParseSuffixes, ParseSub, ParseLoop, PrintBare, MarkBare, DepthBare;
    var rest1 := [RPAREN] + rest;
    var ts := PrintBare(sc, e, 0, 0) + rest1;
    assert [LPAREN] + PrintBare(sc, e, 0, 0) + [RPAREN] + rest == [LPAREN] + ts;
    PrimaryParen(sc, ts, level);
    ReadBare(sc, e, 0, 0, rest1, level);
    LoopStops(sc, MarkBare(e, 0, 0), rest1, 0, level + 1);
    assert rest1[0] == RPAREN && rest1[1..] == rest;
  }

  /** A printed expression is read back as one operand by the loop of subexpr, or is nested
      too deeply. */
  lemma {:induction false} ReadBack(sc: Scope, e: Expr, limit: nat, next: nat, rest: seq<Token>, level: nat)
    requires Nameable(sc, e) && Follows(rest, next)
    ensures ParseSub(sc, Print(sc, e, limit, next) + rest, limit, level) ==
            if level + Depth(e, limit, next) <= LUAI_MAXCCALLS
                then ParseLoop(sc, Mark(e, limit, next), rest, limit, level + 1) else None
    decreases e, 5
  {
    hide ParsePrimary, ParseSuffixes, ParseSub, ParseLoop, PrintBare, MarkBare, DepthBare;
    if Bare(e, limit, next) {
      ReadBare(sc, e, limit, next, rest, level);
    } else {
      ReadParen(sc, e, rest, level + 1);
      LoopStops(sc, EParen(MarkBare(e, 0, 0)), rest, next, level + 1);
      SubPrimary(sc, Print(sc, e, limit, next) + rest, limit, level);
    }
  }

  lemma {:induction false} ReadBare(sc: Scope, e: Expr, limit: nat, next: nat, rest: seq<Token>, level: nat)
    requires Nameable(sc, e) && Bare(e, limit, next) && Follows(rest, next)
    ensures ParseSub(sc, PrintBare(sc, e, limit, next) + rest, limit, level) ==
            if level + DepthBare(e, limit, next) <= LUAI_MAXCCALLS
                then ParseLoop(sc, MarkBare(e, limit, next), rest, limit, level + 1) else None
    decreases e, 3
  {
    hide ParsePrimary, ParseSuffixes, ParseSub, ParseLoop, Print, Mark, Depth;
    if e.EBin? {
      var op, a, b := e.bop, e.left, e.right;
      var tsb := Print(sc, b, Right(op), next) + rest;
      assert PrintBare(sc, e, limit, next) + rest == Print(sc, a, limit, Left(op)) + ([BinToken(op)] + tsb);
      ReadBack(sc, a, limit, Left(op), [BinToken(op)] + tsb, level);
      LoopBinary(sc, Mark(a, limit, Left(op)), op, tsb, limit, level + 1);
      ReadBack(sc, b, Right(op), next, rest, level + 1);
      LoopStops(sc, Mark(b, Right(op), next), rest, Right(op), level + 2);
    } else if e.EUn? {
      var op, x := e.uop, e.e;
      var tsx := Print(sc, x, UNARY_PRIORITY, next) + rest;
      assert PrintBare(sc, e, limit, next) + rest == [UnToken(op)] + tsx;
      SubUnary(sc, op, tsx, limit, level);
      ReadBack(sc, x, UNARY_PRIORITY, next, rest, level + 1);
      LoopStops(sc, Mark(x, UNARY_PRIORITY, next), rest, UNARY_PRIORITY, level + 2);
    } else if IsLeaf(e) {
      SubLeaf(sc, e, rest, limit, next, level);
    } else {
      ReadOperand(sc, e, limit, next, rest, level);
    }
  }

  lemma {:induction false} ReadOperand(sc: Scope, e: Expr, limit: nat, next: nat, rest: seq<Token>, level: nat)
    requires Nameable(sc, e) && IsPrefix(e) && Follows(rest, next)
    ensures ParseSub(sc, PrintBare(sc, e, limit, next) + rest, limit, level) ==
            if level + DepthBare(e, limit, next) <= LUAI_MAXCCALLS
                then ParseLoop(sc, MarkBare(e, limit, next), rest, limit, level + 1) else None
    decreases e, 2
  {
    hide ParsePrimary, ParseSuffixes, ParseSub, ParseLoop, Print, Mark, Depth;
    assert PrintBare(sc, e, limit, next) == PrintPrefix(sc, e) == PrintBare(sc, e, 0, 0)
        && MarkBare(e, limit, next) == MarkBare(e, 0, 0);
    PrefixStart(sc, e);
    SubPrimary(sc, PrintPrefix(sc, e) + rest, limit, level);
    if level < LUAI_MAXCCALLS { ReadPrefixBare(sc, e, rest, level + 1); }
    LoopStops(sc, MarkBare(e, 0, 0), rest, next, level + 1);
  }

  lemma {:induction false} MarkStrip(e: Expr, limit: nat, next: nat)
    ensures Strip(MarkBare(e, limit, next)) == Strip(e)
    decreases e, 0
  {
    match e
    case EIndex(t, k) => MarkStrip(t, 0, 0); MarkStrip(k, 0, 0);
    case EParen(x) => MarkStrip(x, 0, 0);
    case EUn(_, x) => MarkedStrip(x, UNARY_PRIORITY, next);
    case EBin(op, a, b) => MarkedStrip(a, limit, Left(op)); MarkedStrip(b, Right(op), next);
    case _ =>
  }

  lemma {:induction false} MarkedStrip(e: Expr, limit: nat, next: nat)
    ensures Strip(Mark(e, limit, next)) == Strip(e)
    decreases e, 1
  {
    MarkStrip(e, limit, next);
    MarkStrip(e, 0, 0);
  }

  /** Reading a printed expression gives back its tree, up to the parentheses that printing
      added, exactly when it is not nested too deeply. */
  lemma RoundTrip(sc: Scope, e: Expr)
    requires Nameable(sc, e)
    ensures var p := ParseSub(sc, Print(sc, e, 0, 0), 0, 0);
            && (p.Some? <==> Depth(e, 0, 0) <= 200)
            && (p.Some? ==> p.value.1 == [] && Strip(p.value.0) == Strip(e))
  {
    hide ParseSub, Print, Mark, Depth;
    ReadBack(sc, e, 0, 0, [], 0);
    assert Print(sc, e, 0, 0) + [] == Print(sc, e, 0, 0);
    MarkedStrip(e, 0, 0);
  }
}
