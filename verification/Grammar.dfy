/** The grammar of expressions, with the levels of its operators written out (section 2.5.6 of the
    Lua 5.1 Reference Manual): or; and; comparisons; .. ; + and -; *, / and %; unary operators; ^.
    The operators .. and ^ associate to the right, all others to the left. What subexpr reads is
    what this grammar derives. */
module Grammar {
  import opened Common
  import opened LuaValues
  import opened Syntax

  /** A binary operator, its level, and its token. */
  predicate Binary(level: nat, op: BinOpr, t: Token) {
    match op
    case OR => level == 1 && t == TOR
    case AND => level == 2 && t == TAND
    case LESS => level == 3 && t == LESSTHAN
    case GREATER => level == 3 && t == GREATERTHAN
    case LESSEQ => level == 3 && t == LESSEQUAL
    case GREATEREQ => level == 3 && t == GREATEREQUAL
    case NE => level == 3 && t == NOTEQ
    case EQUAL => level == 3 && t == EQEQ
    case CONCAT => level == 4 && t == DOTDOT
    case ARITH(Add) => level == 5 && t == PLUS
    case ARITH(Sub) => level == 5 && t == DASH
    case ARITH(Mul) => level == 6 && t == STAR
    case ARITH(Div) => level == 6 && t == SLASH
    case ARITH(Mod) => level == 6 && t == PERCENT
    case ARITH(Pow) => level == 8 && t == CARET
  }

  predicate Unary(op: UnOpr, t: Token) {
    match op
    case NOT => t == TNOT
    case MINUS => t == DASH
    case LEN => t == HASH
  }

  /** The levels of the operands of a binary operator. */
  function LeftOf(level: nat): nat {
    if level == 4 || level == 8 then level + 1 else level
  }

  function RightOf(level: nat): nat {
    if level == 4 then 4 else if level == 8 then 7 else level + 1
  }

  /** The tokens form the expression x of the level; level 9 is that of simple expressions. */
  ghost predicate Derives(sc: Scope, level: nat, x: Expr, ts: seq<Token>)
    requires 1 <= level <= 9
    decreases |ts|, 9 - level
  {
    if level < 9 then
      || Derives(sc, level + 1, x, ts)
      || (x.EUn? && level == 7 && ts != [] && Unary(x.uop, ts[0]) && Derives(sc, 7, x.e, ts[1..]))
      || (x.EBin? && exists i ::
            && 0 <= i < |ts| && Binary(level, x.bop, ts[i])
            && Derives(sc, LeftOf(level), x.left, ts[..i]) && Derives(sc, RightOf(level), x.right, ts[i + 1..]))
    else
      match x
      case ENil => ts == [TNIL]
      case ETrue => ts == [TTRUE]
      case EFalse => ts == [TFALSE]
      case ENum(n) => ts == [NUMBER(n)]
      case EStr(s) => ts == [STRING(s)]
      case EParen(y) => Enclosed(ts, 0, LPAREN, RPAREN) && Derives(sc, 1, y, ts[1..|ts| - 1])
      case EIndex(t, k) =>
        IsPrefix(t) && (
          || (k.EStr? && Dotted(ts, k.s) && Derives(sc, 9, t, ts[..|ts| - 2]))
          || exists i :: 0 <= i < |ts| && Enclosed(ts, i, LBRACKET, RBRACKET)
              && Derives(sc, 9, t, ts[..i]) && Derives(sc, 1, k, ts[i + 1..|ts| - 1]))
      case EUn(_, _) => false
      case EBin(_, _, _) => false
      case _ => |ts| == 1 && ts[0].NAME? && x == Resolve(sc, ts[0].s)
  }

  /** From i on there is something between two brackets. */
  predicate Enclosed(ts: seq<Token>, i: nat, open: Token, close: Token) {
    i + 2 <= |ts| && ts[i] == open && ts[|ts| - 1] == close
  }

  /** The tokens end with a dot and a name. */
  predicate Dotted(ts: seq<Token>, s: string) {
    |ts| >= 2 && ts[|ts| - 2] == DOT && ts[|ts| - 1] == NAME(s)
  }

  // ----- levels and priorities -----

  /** The level that subexpr reads for a limit. */
  function LevelOf(limit: nat): (level: nat)
    ensures 1 <= level <= 7
  {
    if limit <= 2 then limit + 1 else if limit <= 4 then 4 else if limit <= 6 then limit else 7
  }

  function Rank(op: BinOpr): (level: nat)
    ensures Binary(level, op, BinToken(op)) && 1 <= level <= 8 && level != 7
  {
    match op
    case OR => 1
    case AND => 2
    case CONCAT => 4
    case ARITH(Add) => 5
    case ARITH(Sub) => 5
    case ARITH(Pow) => 8
    case ARITH(_) => 6
    case _ => 3
  }

  lemma RankIs(level: nat, op: BinOpr, t: Token)
    ensures Binary(level, op, t) <==> level == Rank(op) && GetBinOpr(t) == Some(op)
    ensures Binary(level, op, t) ==> t == BinToken(op)
  {
  }

  lemma UnaryIs(op: UnOpr, t: Token)
    ensures Unary(op, t) <==> GetUnOpr(t) == Some(op)
    ensures Unary(op, t) ==> t == UnToken(op)
  {
  }

  lemma {:induction false} Looser(sc: Scope, a: nat, b: nat, x: Expr, ts: seq<Token>)
    requires 1 <= b <= a <= 9 && Derives(sc, a, x, ts)
    ensures Derives(sc, b, x, ts)
    decreases a - b
  {
    if b < a { Looser(sc, a, b + 1, x, ts); }
  }

  /** No operator that binds tighter than the limit comes next. */
  predicate NoTighter(rest: seq<Token>, limit: nat) {
    rest != [] && GetBinOpr(rest[0]).Some? ==> Left(GetBinOpr(rest[0]).value) <= limit
  }

  /** An expression of the level m may be the left operand of what comes next. */
  predicate MayExtend(ts: seq<Token>, limit: nat, m: nat) {
    ts != [] && GetBinOpr(ts[0]).Some? && Left(GetBinOpr(ts[0]).value) > limit ==>
        LeftOf(Rank(GetBinOpr(ts[0]).value)) <= m
  }

  lemma PriorityOf(op: BinOpr, limit: nat)
    ensures RightOf(Rank(op)) == LevelOf(Right(op)) && Right(op) <= 9 && 1 <= LeftOf(Rank(op)) <= 9
    ensures Left(op) > limit ==> LevelOf(limit) <= Rank(op)
    ensures Left(op) <= 8 ==> LeftOf(Rank(op)) <= 7
  {
  }

  lemma AfterRight(op: BinOpr, rest: seq<Token>, limit: nat)
    requires NoTighter(rest, Right(op))
    ensures MayExtend(rest, limit, Rank(op))
  {
  }

  // ----- what is read is derived -----

  /** The tokens that were read form the expression, and the others follow. */
  ghost predicate Took(sc: Scope, p: Parsed, level: nat, pre: seq<Token>, ts: seq<Token>)
    requires 1 <= level <= 9
  {
    p.Some? ==>
      var (x, rest) := p.value;
      var n := |ts| - |rest|;
      |rest| <= |ts| && rest == ts[n..] && Derives(sc, level, x, pre + ts[..n])
  }

  lemma {:induction false} SubSound(sc: Scope, ts: seq<Token>, limit: nat, level: nat)
    requires limit <= 9
    ensures var p := ParseSub(sc, ts, limit, level);
            Took(sc, p, LevelOf(limit), [], ts) && (p.Some? ==> NoTighter(p.value.1, limit))
    decreases |ts|, 4
  {
    if ts != [] {
      hide Derives, ParseOperand, ParseLoop, NoTighter, LevelOf;
      var p := ParseOperand(sc, ts, level + 1);
      if level < LUAI_MAXCCALLS && p.Some? {
        var m := OperandSound(sc, ts, limit, level + 1);
        var (x, rest) := p.value;
        var n := |ts| - |rest|;
        assert [] + ts[..n] == ts[..n];
        LoopSound(sc, x, ts[..n], rest, limit, level + 1, m);
        Continued(sc, ParseLoop(sc, x, rest, limit, level + 1), LevelOf(limit), [], ts, n);
      }
    }
  }

  /** Reading on after the first n tokens. */
  lemma Continued(sc: Scope, p: Parsed, level: nat, pre: seq<Token>, ts: seq<Token>, n: nat)
    requires 1 <= level <= 9 && n <= |ts| && Took(sc, p, level, pre + ts[..n], ts[n..])
    ensures Took(sc, p, level, pre, ts)
  {
    hide Derives;
    if p.Some? {
      var k := |ts| - |p.value.1|;
      assert ts[n..][k - n..] == ts[k..];
      assert pre + ts[..n] + ts[n..][..k - n] == pre + ts[..k];
    }
  }

  lemma {:induction false} OperandSound(sc: Scope, ts: seq<Token>, limit: nat, level: nat) returns (m: nat)
    requires ts != [] && limit <= 9 && ParseOperand(sc, ts, level).Some?
    ensures var p := ParseOperand(sc, ts, level);
            && LevelOf(limit) <= m <= 9 && Took(sc, p, m, [], ts) && MayExtend(p.value.1, limit, m)
    decreases |ts|, 3
  {
    hide ParseSub, ParseSimple, Derives;
    match GetUnOpr(ts[0])
    case None =>
      m := 9;
      SimpleSound(sc, ts, level);
      assert MayExtend(ParseOperand(sc, ts, level).value.1, limit, m);
    case Some(op) =>
      m := 7;
      SubSound(sc, ts[1..], UNARY_PRIORITY, level);
      var (y, rest) := ParseSub(sc, ts[1..], UNARY_PRIORITY, level).value;
      var k := |ts| - |rest|;
      UnaryIs(op, ts[0]);
      assert [] + ts[1..][..k - 1] == ts[..k][1..];
      assert ts[1..][k - 1..] == ts[k..];
      UnaryDerives(sc, op, y, ts[..k]);
      assert [] + ts[..k] == ts[..k];
      if rest != [] && GetBinOpr(rest[0]).Some? { PriorityOf(GetBinOpr(rest[0]).value, limit); }
  }

  lemma UnaryDerives(sc: Scope, op: UnOpr, y: Expr, ts: seq<Token>)
    requires ts != [] && Unary(op, ts[0]) && Derives(sc, 7, y, ts[1..])
    ensures Derives(sc, 7, EUn(op, y), ts)
  {
  }

  lemma BinaryDerives(sc: Scope, op: BinOpr, x: Expr, y: Expr, ts: seq<Token>, i: nat)
    requires i < |ts| && Binary(Rank(op), op, ts[i])
    requires Derives(sc, LeftOf(Rank(op)), x, ts[..i]) && Derives(sc, RightOf(Rank(op)), y, ts[i + 1..])
    ensures Derives(sc, Rank(op), EBin(op, x, y), ts)
  {
  }

  lemma {:induction false} LoopSound(sc: Scope, x: Expr, pre: seq<Token>, ts: seq<Token>, limit: nat, level: nat,
      m: nat)
    requires limit <= 9 && LevelOf(limit) <= m <= 9 && Derives(sc, m, x, pre) && MayExtend(ts, limit, m)
    ensures var p := ParseLoop(sc, x, ts, limit, level);
            Took(sc, p, LevelOf(limit), pre, ts) && (p.Some? ==> NoTighter(p.value.1, limit))
    decreases |ts|, 5
  {
    hide Derives, ParseSub, LevelOf, Rank, LeftOf, RightOf, Took;
    if ts == [] || GetBinOpr(ts[0]).None? || Left(GetBinOpr(ts[0]).value) <= limit {
      Looser(sc, m, LevelOf(limit), x, pre);
      Stopped(sc, x, LevelOf(limit), pre, ts);
    } else {
      var op := GetBinOpr(ts[0]).value;
      var q := ParseSub(sc, ts[1..], Right(op), level);
      PriorityOf(op, limit);
      SubSound(sc, ts[1..], Right(op), level);
      if q.Some? {
        var (y, rest) := q.value;
        OperatorTaken(sc, op, x, m, pre, ts, y, rest);
        AfterRight(op, rest, limit);
        var k := |ts| - |rest|;
        LoopSound(sc, EBin(op, x, y), pre + ts[..k], rest, limit, level, Rank(op));
        Continued(sc, ParseLoop(sc, EBin(op, x, y), rest, limit, level), LevelOf(limit), pre, ts, k);
      } else {
        NothingTook(sc, LevelOf(limit), pre, ts);
      }
    }
  }

  lemma NothingTook(sc: Scope, level: nat, pre: seq<Token>, ts: seq<Token>)
    requires 1 <= level <= 9
    ensures Took(sc, None, level, pre, ts)
  {
  }

  lemma OperatorTaken(sc: Scope, op: BinOpr, x: Expr, m: nat, pre: seq<Token>, ts: seq<Token>, y: Expr,
      rest: seq<Token>)
    requires ts != [] && GetBinOpr(ts[0]) == Some(op) && 1 <= m <= 9 && LeftOf(Rank(op)) <= m && Derives(sc, m, x, pre)
    requires Took(sc, Some((y, rest)), LevelOf(Right(op)), [], ts[1..])
    ensures var k := |ts| - |rest|;
            1 <= k <= |ts| && rest == ts[k..] && Derives(sc, Rank(op), EBin(op, x, y), pre + ts[..k])
  {
    hide Derives, Took, LevelOf;
    var k := |ts| - |rest|;
    PriorityOf(op, 0);
    RankIs(Rank(op), op, ts[0]);
    RestTaken(sc, LevelOf(Right(op)), ts, y, rest);
    hide Rank, LeftOf, RightOf, Left, Right, Binary, BinToken, GetBinOpr;
    Cut(pre, ts, k);
    Looser(sc, m, LeftOf(Rank(op)), x, pre);
    BinaryDerives(sc, op, x, y, pre + ts[..k], |pre|);
  }

  /** What was taken after the first token. */
  lemma RestTaken(sc: Scope, level: nat, ts: seq<Token>, y: Expr, rest: seq<Token>)
    requires 1 <= level <= 9 && ts != [] && Took(sc, Some((y, rest)), level, [], ts[1..])
    ensures var k := |ts| - |rest|;
            1 <= k <= |ts| && rest == ts[k..] && Derives(sc, level, y, [] + ts[1..][..k - 1])
  {
    hide Derives;
  }

  lemma {:induction false} SimpleSound(sc: Scope, ts: seq<Token>, level: nat)
    requires ts != []
    ensures Took(sc, ParseSimple(sc, ts, level), 9, [], ts)
    decreases |ts|, 2
  {
    hide ParsePrefix, ParseSuffixes;
    if ts[0].NUMBER? || ts[0].STRING? || ts[0].TNIL? || ts[0].TTRUE? || ts[0].TFALSE? {
      assert [] + ts[..1] == [ts[0]];
    } else {
      hide Derives;
      PrefixSound(sc, ts, level);
      var q := ParsePrefix(sc, ts, level);
      if q.Some? {
        var (x, rest) := q.value;
        var n := |ts| - |rest|;
        assert [] + ts[..n] == ts[..n];
        SuffixSound(sc, x, ts[..n], rest, level);
        Continued(sc, ParseSuffixes(sc, x, rest, level), 9, [], ts, n);
      }
    }
  }

  lemma {:induction false} PrefixSound(sc: Scope, ts: seq<Token>, level: nat)
    requires ts != []
    ensures var p := ParsePrefix(sc, ts, level);
            Took(sc, p, 9, [], ts) && (p.Some? ==> IsPrefix(p.value.0))
    decreases |ts|, 1
  {
    hide ParseSub;
    match ts[0]
    case NAME(s) => assert [] + ts[..1] == [ts[0]];
    case LPAREN =>
      SubSound(sc, ts[1..], 0, level);
      var q := ParseSub(sc, ts[1..], 0, level);
      if q.Some? && q.value.1 != [] && q.value.1[0].RPAREN? {
        var (x, rest) := q.value;
        var k := |ts| - |rest|;
        assert ts[1..][k - 1..] == ts[k..];
        var all := [] + ts[..k + 1];
        assert all[1..|all| - 1] == [] + ts[1..][..k - 1];
        assert all[|all| - 1] == rest[0];
        assert rest[1..] == ts[k + 1..];
      }
    case _ =>
  }

  lemma {:induction false} SuffixSound(sc: Scope, x: Expr, pre: seq<Token>, ts: seq<Token>, level: nat)
    requires Derives(sc, 9, x, pre) && IsPrefix(x)
    ensures Took(sc, ParseSuffixes(sc, x, ts, level), 9, pre, ts)
    decreases |ts|, 2
  {
    hide ParseSub, Derives, Took;
    Stopped(sc, x, 9, pre, ts);
    if ts != [] && ts[0].DOT? && |ts| >= 2 && ts[1].NAME? {
      var y := EIndex(x, EStr(ts[1].s));
      DotTaken(sc, x, pre, ts);
      SuffixSound(sc, y, pre + ts[..2], ts[2..], level);
      Continued(sc, ParseSuffixes(sc, y, ts[2..], level), 9, pre, ts, 2);
    } else if ts != [] && ts[0].LBRACKET? {
      SubSound(sc, ts[1..], 0, level);
      var q := ParseSub(sc, ts[1..], 0, level);
      if q.Some? && q.value.1 != [] && q.value.1[0].RBRACKET? {
        var (k, rest) := q.value;
        var n := |ts| - |rest|;
        BracketTaken(sc, x, pre, ts, k, rest);
        SuffixSound(sc, EIndex(x, k), pre + ts[..n + 1], rest[1..], level);
        Continued(sc, ParseSuffixes(sc, EIndex(x, k), rest[1..], level), 9, pre, ts, n + 1);
      }
    }
  }

  lemma Stopped(sc: Scope, x: Expr, level: nat, pre: seq<Token>, ts: seq<Token>)
    requires 1 <= level <= 9 && Derives(sc, level, x, pre)
    ensures Took(sc, Some((x, ts)), level, pre, ts) && Took(sc, None, level, pre, ts)
  {
    hide Derives;
    assert pre + ts[..0] == pre;
  }

  lemma DotTaken(sc: Scope, x: Expr, pre: seq<Token>, ts: seq<Token>)
    requires Derives(sc, 9, x, pre) && IsPrefix(x) && |ts| >= 2 && ts[0] == DOT && ts[1].NAME?
    ensures Derives(sc, 9, EIndex(x, EStr(ts[1].s)), pre + ts[..2])
  {
    hide Derives;
    var all := pre + ts[..2];
    assert all[..|all| - 2] == pre;
    DotDerives(sc, x, ts[1].s, all);
  }

  lemma BracketTaken(sc: Scope, x: Expr, pre: seq<Token>, ts: seq<Token>, k: Expr, rest: seq<Token>)
    requires Derives(sc, 9, x, pre) && IsPrefix(x) && ts != [] && ts[0] == LBRACKET
    requires Took(sc, Some((k, rest)), 1, [], ts[1..]) && rest != [] && rest[0] == RBRACKET
    ensures var n := |ts| - |rest|;
            1 <= n < |ts| && rest[1..] == ts[n + 1..] && Derives(sc, 9, EIndex(x, k), pre + ts[..n + 1])
  {
    hide Derives;
    var n := |ts| - |rest|;
    var all := pre + ts[..n + 1];
    Cut(pre, ts, n);
    Cut(pre, ts, n + 1);
    assert all[|pre| + 1..|all| - 1] == [] + ts[1..][..n - 1];
    hide IsPrefix;
    BracketDerives(sc, x, k, all, |pre|);
  }

  lemma Cut(pre: seq<Token>, ts: seq<Token>, k: nat)
    requires 1 <= k <= |ts|
    ensures var all := pre + ts[..k];
            all[..|pre|] == pre && all[|pre|] == ts[0] && all[|pre| + 1..] == [] + ts[1..][..k - 1]
                && all[|all| - 1] == ts[k - 1]
    ensures ts[1..][k - 1..] == ts[k..]
  {
  }

  lemma DotDerives(sc: Scope, x: Expr, s: string, ts: seq<Token>)
    requires Dotted(ts, s) && IsPrefix(x) && Derives(sc, 9, x, ts[..|ts| - 2])
    ensures Derives(sc, 9, EIndex(x, EStr(s)), ts)
  {
  }

  lemma BracketDerives(sc: Scope, x: Expr, k: Expr, ts: seq<Token>, i: nat)
    requires Enclosed(ts, i, LBRACKET, RBRACKET) && IsPrefix(x)
    requires Derives(sc, 9, x, ts[..i]) && Derives(sc, 1, k, ts[i + 1..|ts| - 1])
    ensures Derives(sc, 9, EIndex(x, k), ts)
  {
  }

  // ----- what is derived is read -----

  /** How deep reading an expression nests, at most. */
  function Nesting(x: Expr): nat {
    match x
    case EUn(_, a) => 1 + Nesting(a)
    case EBin(_, a, b) => Max(Nesting(a), 1 + Nesting(b))
    case EParen(a) => 1 + Nesting(a)
    case EIndex(t, k) => Max(Nesting(t), 1 + Nesting(k))
    case _ => 1
  }

  /** The limits with which subexpr reads all of an expression of the level. */
  function MaxLimit(level: nat): nat {
    if level == 0 then 0 else if level <= 3 then level - 1 else if level <= 6 then level else 9
  }

  /** The priority of the operators that may follow it. */
  function MaxNext(level: nat): nat {
    if level <= 4 then level else if level <= 6 then level + 1 else if level <= 8 then 8 else 10
  }

  lemma LevelFits(op: BinOpr)
    ensures var level := Rank(op);
            && MaxLimit(level) < Left(op) && MaxLimit(level) <= MaxLimit(LeftOf(level))
                && Left(op) <= MaxNext(LeftOf(level))
            && Right(op) <= MaxLimit(RightOf(level)) && MaxNext(level) <= MaxNext(RightOf(level))
            && MaxNext(level) <= Right(op)
  {
  }

  lemma {:induction false} SubComplete(sc: Scope, m: nat, x: Expr, ts: seq<Token>, limit: nat, next: nat,
      rest: seq<Token>, level: nat)
    requires 1 <= m <= 9 && Derives(sc, m, x, ts) && limit <= MaxLimit(m) && next <= MaxNext(m)
    requires Follows(rest, next) && level + Nesting(x) <= 200
    ensures ParseSub(sc, ts + rest, limit, level) == ParseLoop(sc, x, rest, limit, level + 1)
    decreases |ts|, 9 - m, 5
  {
    hide ParseSub, ParseLoop, Follows;
    if m == 9 {
      SimpleComplete(sc, x, ts, limit, next, rest, level);
    } else if Derives(sc, m + 1, x, ts) {
      SubComplete(sc, m + 1, x, ts, limit, next, rest, level);
    } else if x.EUn? {
      UnaryComplete(sc, x.uop, x.e, ts, limit, next, rest, level);
    } else {
      OperatorComplete(sc, m, x, ts, limit, next, rest, level);
    }
  }

  lemma {:induction false} UnaryComplete(sc: Scope, op: UnOpr, x: Expr, ts: seq<Token>, limit: nat, next: nat,
      rest: seq<Token>, level: nat)
    requires ts != [] && Unary(op, ts[0]) && Derives(sc, 7, x, ts[1..])
    requires Follows(rest, next) && next <= 8 && level + 1 + Nesting(x) <= 200
    ensures ParseSub(sc, ts + rest, limit, level) == ParseLoop(sc, EUn(op, x), rest, limit, level + 1)
    decreases |ts|, 2, 4
  {
    hide ParseSub, ParseLoop, Follows, Derives;
    UnaryIs(op, ts[0]);
    var t := ts[1..] + rest;
    assert ts + rest == [UnToken(op)] + t;
    SubUnary(sc, op, t, limit, level);
    RightComplete(sc, 7, x, ts[1..], UNARY_PRIORITY, next, rest, level + 1);
  }

  lemma {:induction false} OperatorComplete(sc: Scope, m: nat, x: Expr, ts: seq<Token>, limit: nat, next: nat,
      rest: seq<Token>, level: nat)
    requires 1 <= m <= 8 && x.EBin? && limit <= MaxLimit(m) && next <= MaxNext(m)
    requires exists i ::
        && 0 <= i < |ts| && Binary(m, x.bop, ts[i])
        && Derives(sc, LeftOf(m), x.left, ts[..i]) && Derives(sc, RightOf(m), x.right, ts[i + 1..])
    requires Follows(rest, next) && level + Nesting(x) <= 200
    ensures ParseSub(sc, ts + rest, limit, level) == ParseLoop(sc, x, rest, limit, level + 1)
    decreases |ts|, 9 - m, 4
  {
    hide ParseSub, ParseLoop, Follows, Derives, MaxLimit, MaxNext;
    var i :| 0 <= i < |ts| && Binary(m, x.bop, ts[i])
        && Derives(sc, LeftOf(m), x.left, ts[..i]) && Derives(sc, RightOf(m), x.right, ts[i + 1..]);
    RankIs(m, x.bop, ts[i]);
    SplitTokens(ts, i, rest);
    BinaryComplete(sc, x.bop, x.left, x.right, ts[..i], ts[i + 1..], limit, next, rest, level);
  }

  lemma FollowsMore(rest: seq<Token>, next: nat, next': nat)
    requires Follows(rest, next) && next <= next'
    ensures Follows(rest, next')
  {
  }

  lemma {:induction false} BinaryComplete(sc: Scope, op: BinOpr, a: Expr, b: Expr, l: seq<Token>, r: seq<Token>,
      limit: nat, next: nat, rest: seq<Token>, level: nat)
    requires Follows(rest, next) && level + Max(Nesting(a), 1 + Nesting(b)) <= 200
    requires Derives(sc, LeftOf(Rank(op)), a, l) && Derives(sc, RightOf(Rank(op)), b, r)
    requires limit <= MaxLimit(Rank(op)) && next <= MaxNext(Rank(op))
    ensures ParseSub(sc, l + ([BinToken(op)] + (r + rest)), limit, level) ==
        ParseLoop(sc, EBin(op, a, b), rest, limit, level + 1)
    decreases |l| + 1 + |r|, 9 - Rank(op), 3
  {
    hide ParseSub, ParseLoop, Follows, Derives, Nesting, Rank, LeftOf, RightOf, MaxLimit, MaxNext, LevelOf;
    LevelFits(op);
    PriorityOf(op, limit);
    hide Left, Right, BinToken;
    TokenFollows(op, r + rest);
    SubComplete(sc, LeftOf(Rank(op)), a, l, limit, Left(op), [BinToken(op)] + (r + rest), level);
    RightComplete(sc, RightOf(Rank(op)), b, r, Right(op), next, rest, level + 1);
    LoopBinary(sc, a, op, r + rest, limit, level + 1);
  }

  lemma SplitTokens(ts: seq<Token>, i: nat, rest: seq<Token>)
    requires i < |ts|
    ensures ts + rest == ts[..i] + ([ts[i]] + (ts[i + 1..] + rest))
  {
  }

  lemma {:induction false} RightComplete(sc: Scope, m: nat, x: Expr, ts: seq<Token>, limit: nat, next: nat,
      rest: seq<Token>, level: nat)
    requires 1 <= m <= 9 && Derives(sc, m, x, ts) && limit <= MaxLimit(m) && next <= MaxNext(m) && next <= limit
    requires Follows(rest, next) && level + Nesting(x) <= 200
    ensures ParseSub(sc, ts + rest, limit, level) == Some((x, rest))
    decreases |ts|, 9 - m, 6
  {
    hide ParseSub, ParseLoop, Follows, Derives;
    SubComplete(sc, m, x, ts, limit, next, rest, level);
    FollowsMore(rest, next, limit);
    LoopStops(sc, x, rest, limit, level + 1);
  }

  lemma TokenFollows(op: BinOpr, t: seq<Token>)
    ensures Follows([BinToken(op)] + t, Left(op))
  {
  }

  lemma {:induction false} SimpleComplete(sc: Scope, x: Expr, ts: seq<Token>, limit: nat, next: nat, rest: seq<Token>,
      level: nat)
    requires Derives(sc, 9, x, ts) && Follows(rest, next) && level + Nesting(x) <= 200
    ensures ParseSub(sc, ts + rest, limit, level) == ParseLoop(sc, x, rest, limit, level + 1)
    decreases |ts|, 0, 4
  {
    hide ParseSub, ParseLoop, ParsePrimary, ParseSuffixes;
    if IsLeaf(x) {
      assert PrintBare(Scope([], []), x, limit, next) == ts;
      LeafComplete(sc, x, ts, rest, limit, next, level);
    } else {
      PrefixComplete(sc, x, ts, rest, level + 1);
      PrefixFirst(sc, x, ts);
      SubPrimary(sc, ts + rest, limit, level);
      LoopStops(sc, x, rest, next, level + 1);
    }
  }

  lemma LeafComplete(sc: Scope, x: Expr, ts: seq<Token>, rest: seq<Token>, limit: nat, next: nat, level: nat)
    requires Derives(sc, 9, x, ts) && IsLeaf(x) && level < 200
    ensures ParseSub(sc, ts + rest, limit, level) == ParseLoop(sc, x, rest, limit, level + 1)
  {
    hide ParseSub, ParseLoop;
    assert ts == PrintBare(sc, x, limit, next);
    SubLeaf(sc, x, rest, limit, next, level);
  }

  lemma {:induction false} PrefixFirst(sc: Scope, x: Expr, ts: seq<Token>)
    requires Derives(sc, 9, x, ts) && !IsLeaf(x)
    ensures IsPrefix(x) && ts != [] && (ts[0].NAME? || ts[0].LPAREN?)
    decreases |ts|
  {
    if x.EIndex? {
      if x.key.EStr? && Dotted(ts, x.key.s) && Derives(sc, 9, x.table, ts[..|ts| - 2]) {
        PrefixFirst(sc, x.table, ts[..|ts| - 2]);
      } else {
        var i :| 0 <= i < |ts| && Enclosed(ts, i, LBRACKET, RBRACKET) && Derives(sc, 9, x.table, ts[..i])
            && Derives(sc, 1, x.key, ts[i + 1..|ts| - 1]);
        PrefixFirst(sc, x.table, ts[..i]);
      }
    }
  }

  lemma {:induction false} PrefixComplete(sc: Scope, x: Expr, ts: seq<Token>, rest: seq<Token>, level: nat)
    requires Derives(sc, 9, x, ts) && !IsLeaf(x) && level + Nesting(x) <= 201
    ensures ParsePrimary(sc, ts + rest, level) == ParseSuffixes(sc, x, rest, level)
    decreases |ts|, 0, 3
  {
    hide ParseSub, ParseLoop, ParseSuffixes, ParsePrimary;
    if x.EIndex? {
      if x.key.EStr? && Dotted(ts, x.key.s) && Derives(sc, 9, x.table, ts[..|ts| - 2]) {
        DotComplete(sc, x.table, x.key.s, ts, rest, level);
      } else {
        var i :| 0 <= i < |ts| && Enclosed(ts, i, LBRACKET, RBRACKET) && Derives(sc, 9, x.table, ts[..i])
            && Derives(sc, 1, x.key, ts[i + 1..|ts| - 1]);
        IndexComplete(sc, x.table, x.key, ts, i, rest, level);
      }
    } else if x.EParen? {
      ParenComplete(sc, x.e, ts, rest, level);
    } else {
      assert (ts + rest)[1..] == rest;
      NameComplete(sc, ts + rest, level);
    }
  }

  lemma {:induction false} DotComplete(sc: Scope, x: Expr, s: string, ts: seq<Token>, rest: seq<Token>, level: nat)
    requires Dotted(ts, s) && IsPrefix(x) && Derives(sc, 9, x, ts[..|ts| - 2]) && level + Nesting(x) <= 201
    ensures ParsePrimary(sc, ts + rest, level) == ParseSuffixes(sc, EIndex(x, EStr(s)), rest, level)
    decreases |ts|, 0, 2
  {
    hide ParseSuffixes, ParsePrimary, Derives;
    var t := [DOT, NAME(s)] + rest;
    assert ts + rest == ts[..|ts| - 2] + t;
    PrefixComplete(sc, x, ts[..|ts| - 2], t, level);
    SuffixDot(sc, x, s, rest, level);
  }

  lemma NameComplete(sc: Scope, ts: seq<Token>, level: nat)
    requires ts != [] && ts[0].NAME?
    ensures ParsePrimary(sc, ts, level) == ParseSuffixes(sc, Resolve(sc, ts[0].s), ts[1..], level)
  {
    hide ParseSuffixes;
  }

  lemma SuffixDot(sc: Scope, x: Expr, s: string, rest: seq<Token>, level: nat)
    ensures ParseSuffixes(sc, x, [DOT, NAME(s)] + rest, level) == ParseSuffixes(sc, EIndex(x, EStr(s)), rest, level)
  {
    var t := [DOT, NAME(s)] + rest;
    assert t[0] == DOT && t[1] == NAME(s) && t[2..] == rest;
  }

  lemma {:induction false} IndexComplete(sc: Scope, x: Expr, k: Expr, ts: seq<Token>, i: nat, rest: seq<Token>,
      level: nat)
    requires i < |ts| && Enclosed(ts, i, LBRACKET, RBRACKET) && IsPrefix(x)
    requires Derives(sc, 9, x, ts[..i]) && Derives(sc, 1, k, ts[i + 1..|ts| - 1])
    requires level + Nesting(EIndex(x, k)) <= 201
    ensures ParsePrimary(sc, ts + rest, level) == ParseSuffixes(sc, EIndex(x, k), rest, level)
    decreases |ts|, 0, 2
  {
    hide ParseSub, ParseLoop, ParseSuffixes, ParsePrimary, Derives;
    var inner, more := ts[i + 1..|ts| - 1], [RBRACKET] + rest;
    assert ts + rest == ts[..i] + ([LBRACKET] + (inner + more));
    PrefixComplete(sc, x, ts[..i], [LBRACKET] + (inner + more), level);
    SuffixIndex(sc, x, inner + more, level);
    assert Follows(more, 0) && more[0] == RBRACKET && more[1..] == rest;
    hide Follows;
    RightComplete(sc, 1, k, inner, 0, 0, more, level);
  }

  lemma {:induction false} ParenComplete(sc: Scope, x: Expr, ts: seq<Token>, rest: seq<Token>, level: nat)
    requires Enclosed(ts, 0, LPAREN, RPAREN) && Derives(sc, 1, x, ts[1..|ts| - 1])
    requires level + Nesting(EParen(x)) <= 201
    ensures ParsePrimary(sc, ts + rest, level) == ParseSuffixes(sc, EParen(x), rest, level)
    decreases |ts|, 0, 2
  {
    hide ParseSub, ParseLoop, ParseSuffixes, ParsePrimary, Derives;
    var inner, more := ts[1..|ts| - 1], [RPAREN] + rest;
    assert ts + rest == [LPAREN] + (inner + more);
    PrimaryParen(sc, inner + more, level);
    assert Follows(more, 0) && more[0] == RPAREN && more[1..] == rest;
    hide Follows;
    RightComplete(sc, 1, x, inner, 0, 0, more, level);
  }

  /** subexpr reads an expression from tokens if and only if the grammar derives it from them,
      unless it is nested too deeply. */
  lemma ReadsGrammar(sc: Scope, x: Expr, ts: seq<Token>)
    ensures ParseSub(sc, ts, 0, 0) == Some((x, [])) ==> Derives(sc, 1, x, ts)
    ensures Nesting(x) <= 200 && Derives(sc, 1, x, ts) ==> ParseSub(sc, ts, 0, 0) == Some((x, []))
  {
    hide ParseSub, ParseLoop, Derives;
    SubSound(sc, ts, 0, 0);
    assert [] + ts[..|ts| - 0] == ts;
    if Nesting(x) <= 200 && Derives(sc, 1, x, ts) {
      SubComplete(sc, 1, x, ts, 0, 0, [], 0);
      LoopStops(sc, x, [], 0, 1);
      assert ts + [] == ts;
    }
  }

  /** No tokens have two meanings. */
  lemma Unambiguous(sc: Scope, x: Expr, y: Expr, ts: seq<Token>)
    requires Derives(sc, 1, x, ts) && Derives(sc, 1, y, ts) && Nesting(x) <= 200 && Nesting(y) <= 200
    ensures x == y
  {
    hide ParseSub, Derives;
    ReadsGrammar(sc, x, ts);
    ReadsGrammar(sc, y, ts);
  }

  // ----- return statements -----

  /** Expressions separated by commas. */
  ghost predicate DerivesList(sc: Scope, es: seq<Expr>, ts: seq<Token>)
    decreases |es|
  {
    es != [] &&
    var n := |es| - 1;
    if n == 0 then Derives(sc, 1, es[0], ts)
    else exists i ::
      0 <= i < |ts| && ts[i] == COMMA && DerivesList(sc, es[..n], ts[..i]) && Derives(sc, 1, es[n], ts[i + 1..])
  }

  ghost predicate DerivesReturn(sc: Scope, es: seq<Expr>, ts: seq<Token>) {
    ts != [] && ts[0] == TRETURN && if es == [] then |ts| == 1 else DerivesList(sc, es, ts[1..])
  }

  lemma ListOne(sc: Scope, x: Expr, ts: seq<Token>)
    ensures DerivesList(sc, [x], ts) <==> Derives(sc, 1, x, ts)
  {
  }

  lemma ListMore(sc: Scope, es: seq<Expr>, x: Expr, ts: seq<Token>, i: nat)
    requires i < |ts| && ts[i] == COMMA && DerivesList(sc, es, ts[..i]) && Derives(sc, 1, x, ts[i + 1..])
    ensures DerivesList(sc, es + [x], ts)
  {
    hide Derives;
    assert (es + [x])[..|es|] == es;
  }

  lemma {:induction false} MoreSound(sc: Scope, es: seq<Expr>, pre: seq<Token>, ts: seq<Token>, level: nat)
    requires DerivesList(sc, es, pre)
    ensures var p := ParseMore(sc, es, ts, level);
            p.Some? && p.value.1 == [] ==> DerivesList(sc, p.value.0, pre + ts)
    decreases |ts|
  {
    hide ParseSub, Derives, DerivesList;
    if ts == [] || !ts[0].COMMA? {
      assert pre + [] == pre;
    } else {
      SubSound(sc, ts[1..], 0, level);
      var q := ParseSub(sc, ts[1..], 0, level);
      if q.Some? {
        var (x, rest) := q.value;
        var k := |ts| - |rest|;
        Cut(pre, ts, k);
        ListMore(sc, es, x, pre + ts[..k], |pre|);
        MoreSound(sc, es + [x], pre + ts[..k], rest, level);
        assert pre + ts[..k] + rest == pre + ts;
      }
    }
  }

  /** The start of explist1. */
  function ParseList(sc: Scope, ts: seq<Token>, level: nat): ParsedList {
    match ParseSub(sc, ts, 0, level)
    case None => None
    case Some((x, rest)) => ParseMore(sc, [x], rest, level)
  }

  lemma {:induction false} ListComplete(sc: Scope, es: seq<Expr>, ts: seq<Token>, rest: seq<Token>)
    requires DerivesList(sc, es, ts) && (forall i :: 0 <= i < |es| ==> Nesting(es[i]) <= 200)
    requires rest != [] ==> rest[0] == COMMA
    ensures ParseList(sc, ts + rest, 0) == ParseMore(sc, es, rest, 0)
    decreases |es|
  {
    hide ParseSub, Derives, Follows, ParseMore, Nesting;
    var n := |es| - 1;
    CommaFollows(rest);
    if n == 0 {
      RightComplete(sc, 1, es[0], ts, 0, 0, rest, 0);
      assert es == [es[0]];
    } else {
      var i :| 0 <= i < |ts| && ts[i] == COMMA && DerivesList(sc, es[..n], ts[..i])
          && Derives(sc, 1, es[n], ts[i + 1..]);
      var t := ts[i + 1..] + rest;
      SplitTokens(ts, i, rest);
      ListComplete(sc, es[..n], ts[..i], [COMMA] + t);
      RightComplete(sc, 1, es[n], ts[i + 1..], 0, 0, rest, 0);
      OneMore(sc, es[..n], es[n], t, rest);
      assert es[..n] + [es[n]] == es;
    }
  }

  lemma CommaFollows(rest: seq<Token>)
    requires rest != [] ==> rest[0] == COMMA
    ensures Follows(rest, 0)
  {
  }

  lemma OneMore(sc: Scope, es: seq<Expr>, x: Expr, t: seq<Token>, rest: seq<Token>)
    requires ParseSub(sc, t, 0, 0) == Some((x, rest))
    ensures ParseMore(sc, es, [COMMA] + t, 0) == ParseMore(sc, es + [x], rest, 0)
  {
    hide ParseSub;
    assert ([COMMA] + t)[1..] == t;
  }

  lemma {:induction false} NotAnEnd(sc: Scope, m: nat, x: Expr, ts: seq<Token>)
    requires 1 <= m <= 9 && Derives(sc, m, x, ts)
    ensures ts != [] && !ts[0].BLOCKEND? && !ts[0].SEMICOLON?
    decreases |ts|, 9 - m
  {
    if m == 9 {
      hide Derives;
      if IsLeaf(x) { LeafFirst(sc, x, ts); } else { PrefixFirst(sc, x, ts); }
    } else if Derives(sc, m + 1, x, ts) {
      NotAnEnd(sc, m + 1, x, ts);
    } else if x.EBin? {
      var i :| 0 <= i < |ts| && Binary(m, x.bop, ts[i])
          && Derives(sc, LeftOf(m), x.left, ts[..i]) && Derives(sc, RightOf(m), x.right, ts[i + 1..]);
      NotAnEnd(sc, LeftOf(m), x.left, ts[..i]);
    }
  }

  lemma LeafFirst(sc: Scope, x: Expr, ts: seq<Token>)
    requires Derives(sc, 9, x, ts) && IsLeaf(x)
    ensures ts != [] && !ts[0].BLOCKEND? && !ts[0].SEMICOLON?
  {
  }

  lemma {:induction false} ListFirst(sc: Scope, es: seq<Expr>, ts: seq<Token>)
    requires DerivesList(sc, es, ts)
    ensures ts != [] && !ts[0].BLOCKEND? && !ts[0].SEMICOLON?
    decreases |es|
  {
    hide Derives;
    var n := |es| - 1;
    if n == 0 {
      NotAnEnd(sc, 1, es[0], ts);
    } else {
      var i :| 0 <= i < |ts| && ts[i] == COMMA && DerivesList(sc, es[..n], ts[..i])
          && Derives(sc, 1, es[n], ts[i + 1..]);
      ListFirst(sc, es[..n], ts[..i]);
    }
  }

  /** The same for whole return statements. */
  lemma ReturnReads(sc: Scope, es: seq<Expr>, ts: seq<Token>)
    ensures ParseReturn(sc, ts, 0) == Some((es, [])) ==> DerivesReturn(sc, es, ts)
    ensures DerivesReturn(sc, es, ts) && (forall i :: 0 <= i < |es| ==> Nesting(es[i]) <= 200) ==>
        ParseReturn(sc, ts, 0) == Some((es, []))
  {
    hide ParseSub, Derives, DerivesList, ParseMore;
    if ts != [] && ts[0].TRETURN? && |ts| > 1 {
      var body := ts[1..];
      assert ParseReturn(sc, ts, 0).Some? && !ts[1].BLOCKEND? && !ts[1].SEMICOLON? ==>
          ParseReturn(sc, ts, 0) == ParseList(sc, body, 0);
      SubSound(sc, body, 0, 0);
      var q := ParseSub(sc, body, 0, 0);
      if q.Some? {
        var (x, rest) := q.value;
        var k := |body| - |rest|;
        assert [] + body[..k] == body[..k] && body[..k] + rest == body;
        ListOne(sc, x, body[..k]);
        MoreSound(sc, [x], body[..k], rest, 0);
      }
      if es != [] && DerivesList(sc, es, body) && forall i :: 0 <= i < |es| ==> Nesting(es[i]) <= 200 {
        ListComplete(sc, es, body, []);
        ListFirst(sc, es, body);
        assert body + [] == body;
        MoreNone(sc, es);
      }
    } else if es != [] && ts != [] && DerivesList(sc, es, ts[1..]) {
      ListFirst(sc, es, ts[1..]);
    }
  }

  lemma MoreNone(sc: Scope, es: seq<Expr>)
    ensures ParseMore(sc, es, [], 0) == Some((es, []))
  {
  }

  // ----- precedence and associativity -----

  lemma JoinDerives(sc: Scope, level: nat, op: BinOpr, t: Token, x: Expr, m: nat, xs: seq<Token>, y: Expr, n: nat,
      ys: seq<Token>)
    requires Binary(level, op, t) && 1 <= m <= 9 && 1 <= n <= 9 && LeftOf(level) <= m && RightOf(level) <= n
    requires Derives(sc, m, x, xs) && Derives(sc, n, y, ys)
    ensures 1 <= level <= 8 && Derives(sc, level, EBin(op, x, y), xs + [t] + ys)
  {
    hide Derives;
    RankIs(level, op, t);
    Looser(sc, m, LeftOf(level), x, xs);
    Looser(sc, n, RightOf(level), y, ys);
    var ts := xs + [t] + ys;
    assert ts[..|xs|] == xs && ts[|xs|] == t && ts[|xs| + 1..] == ys;
    BinaryDerives(sc, op, x, y, ts, |xs|);
  }

  /** a o1 b o2 c: the tighter operator takes b, and of two on one level the left one, except for
      .. and ^. */
  lemma TwoOperators(sc: Scope, l1: nat, o1: BinOpr, t1: Token, l2: nat, o2: BinOpr, t2: Token, a: Expr, at: seq<Token>,
      b: Expr, bt: seq<Token>, c: Expr, ct: seq<Token>)
    requires Binary(l1, o1, t1) && Binary(l2, o2, t2)
    requires Derives(sc, 9, a, at) && Derives(sc, 9, b, bt) && Derives(sc, 9, c, ct)
    requires Nesting(a) <= 198 && Nesting(b) <= 198 && Nesting(c) <= 198
    ensures var left := l1 > l2 || (l1 == l2 && l1 != 4 && l1 != 8);
            ParseSub(sc, at + [t1] + bt + [t2] + ct, 0, 0) ==
            Some((if left then EBin(o2, EBin(o1, a, b), c) else EBin(o1, a, EBin(o2, b, c)), []))
  {
    hide ParseSub, Derives, Binary;
    var ts := at + [t1] + bt + [t2] + ct;
    if l1 > l2 || (l1 == l2 && l1 != 4 && l1 != 8) {
      LeftFirst(sc, l1, o1, t1, l2, o2, t2, a, at, b, bt, c, ct);
      assert Nesting(EBin(o1, a, b)) <= 199;
      ReadsGrammar(sc, EBin(o2, EBin(o1, a, b), c), ts);
    } else {
      RightFirst(sc, l1, o1, t1, l2, o2, t2, a, at, b, bt, c, ct);
      assert Nesting(EBin(o2, b, c)) <= 199;
      ReadsGrammar(sc, EBin(o1, a, EBin(o2, b, c)), ts);
    }
  }

  lemma LeftFirst(sc: Scope, l1: nat, o1: BinOpr, t1: Token, l2: nat, o2: BinOpr, t2: Token, a: Expr, at: seq<Token>,
      b: Expr, bt: seq<Token>, c: Expr, ct: seq<Token>)
    requires Binary(l1, o1, t1) && Binary(l2, o2, t2) && (l1 > l2 || (l1 == l2 && l1 != 4 && l1 != 8))
    requires Derives(sc, 9, a, at) && Derives(sc, 9, b, bt) && Derives(sc, 9, c, ct)
    ensures Derives(sc, 1, EBin(o2, EBin(o1, a, b), c), at + [t1] + bt + [t2] + ct)
  {
    RankIs(l1, o1, t1);
    RankIs(l2, o2, t2);
    hide Derives, Binary, Rank;
    JoinDerives(sc, l1, o1, t1, a, 9, at, b, 9, bt);
    JoinDerives(sc, l2, o2, t2, EBin(o1, a, b), l1, at + [t1] + bt, c, 9, ct);
    Looser(sc, l2, 1, EBin(o2, EBin(o1, a, b), c), at + [t1] + bt + [t2] + ct);
  }

  lemma RightFirst(sc: Scope, l1: nat, o1: BinOpr, t1: Token, l2: nat, o2: BinOpr, t2: Token, a: Expr, at: seq<Token>,
      b: Expr, bt: seq<Token>, c: Expr, ct: seq<Token>)
    requires Binary(l1, o1, t1) && Binary(l2, o2, t2) && (l1 < l2 || (l1 == l2 && (l1 == 4 || l1 == 8)))
    requires Derives(sc, 9, a, at) && Derives(sc, 9, b, bt) && Derives(sc, 9, c, ct)
    ensures Derives(sc, 1, EBin(o1, a, EBin(o2, b, c)), at + [t1] + bt + [t2] + ct)
  {
    RankIs(l1, o1, t1);
    RankIs(l2, o2, t2);
    hide Derives, Binary, Rank;
    JoinDerives(sc, l2, o2, t2, b, 9, bt, c, 9, ct);
    JoinDerives(sc, l1, o1, t1, a, 9, at, EBin(o2, b, c), l2, bt + [t2] + ct);
    Regroup(at, [t1], bt, [t2], ct);
    Looser(sc, l1, 1, EBin(o1, a, EBin(o2, b, c)), at + [t1] + bt + [t2] + ct);
  }

  lemma Regroup(a: seq<Token>, b: seq<Token>, c: seq<Token>, d: seq<Token>, e: seq<Token>)
    ensures a + b + (c + d + e) == a + b + c + d + e
  {
  }

  /** u a o b: only ^ binds tighter than a unary operator. */
  lemma UnaryFirst(sc: Scope, u: UnOpr, ut: Token, level: nat, op: BinOpr, t: Token, a: Expr, at: seq<Token>, b: Expr,
      bt: seq<Token>)
    requires Unary(u, ut) && Binary(level, op, t) && Derives(sc, 9, a, at) && Derives(sc, 9, b, bt)
    requires Nesting(a) <= 198 && Nesting(b) <= 198
    ensures ParseSub(sc, [ut] + at + [t] + bt, 0, 0) ==
            Some((if op == ARITH(Pow) then EUn(u, EBin(op, a, b)) else EBin(op, EUn(u, a), b), []))
  {
    hide ParseSub, Derives, Binary;
    assert Nesting(EUn(u, a)) <= 199 && Nesting(EBin(op, a, b)) <= 199;
    assert Nesting(EUn(u, EBin(op, a, b))) <= 200 && Nesting(EBin(op, EUn(u, a), b)) <= 200;
    hide Nesting, Unary;
    var ts := [ut] + at + [t] + bt;
    if op == ARITH(Pow) {
      UnaryLast(sc, u, ut, level, op, t, a, at, b, bt);
      ReadsGrammar(sc, EUn(u, EBin(op, a, b)), ts);
    } else {
      UnaryInside(sc, u, ut, level, op, t, a, at, b, bt);
      ReadsGrammar(sc, EBin(op, EUn(u, a), b), ts);
    }
  }

  lemma UnaryLast(sc: Scope, u: UnOpr, ut: Token, level: nat, op: BinOpr, t: Token, a: Expr, at: seq<Token>, b: Expr,
      bt: seq<Token>)
    requires Unary(u, ut) && Binary(level, op, t) && op == ARITH(Pow) && Derives(sc, 9, a, at) && Derives(sc, 9, b, bt)
    ensures Derives(sc, 1, EUn(u, EBin(op, a, b)), [ut] + at + [t] + bt)
  {
    RankIs(level, op, t);
    hide Derives, Binary, Unary;
    var x, ts := EBin(op, a, b), [ut] + at + [t] + bt;
    JoinDerives(sc, level, op, t, a, 9, at, b, 9, bt);
    Looser(sc, level, 7, x, at + [t] + bt);
    assert ts[1..] == at + [t] + bt;
    UnaryDerives(sc, u, x, ts);
    Looser(sc, 7, 1, EUn(u, x), ts);
  }

  lemma UnaryInside(sc: Scope, u: UnOpr, ut: Token, level: nat, op: BinOpr, t: Token, a: Expr, at: seq<Token>,
      b: Expr, bt: seq<Token>)
    requires Unary(u, ut) && Binary(level, op, t) && op != ARITH(Pow) && Derives(sc, 9, a, at) && Derives(sc, 9, b, bt)
    ensures Derives(sc, 1, EBin(op, EUn(u, a), b), [ut] + at + [t] + bt)
  {
    RankIs(level, op, t);
    assert level <= 6;
    hide Derives, Binary, Unary, Rank;
    Looser(sc, 9, 7, a, at);
    assert ([ut] + at)[1..] == at;
    UnaryDerives(sc, u, a, [ut] + at);
    JoinDerives(sc, level, op, t, EUn(u, a), 7, [ut] + at, b, 9, bt);
    Looser(sc, level, 1, EBin(op, EUn(u, a), b), [ut] + at + [t] + bt);
  }
}
