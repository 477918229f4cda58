/** The expression parser driving the code generator (lparser.c). It accepts what module
    Syntax reads, and the code it emits is that of compiling the expression it has read. */
module LParser {
  import opened Common
  import opened LuaValues
  import opened CodeGen
  import opened GenInvariant
  import opened ExpMeaning
  import opened BinaryOperands
  import opened Compilation
  import opened GenSteps
  import opened JumpLists
  import opened LCode
  import opened Syntax
  import opened ParserSteps

  class LexState {
    var toks: seq<Token>   // the current token and those after it
    var nCcalls: nat
    const ops: Ops
    const sc: Scope
    const fs: FuncState

    constructor (ops: Ops, sc: Scope, fs: FuncState, toks: seq<Token>)
      ensures this.ops == ops && this.sc == sc && this.fs == fs && this.toks == toks && nCcalls == 0
    {
      this.ops, this.sc, this.fs, this.toks, this.nCcalls := ops, sc, fs, toks, 0;
    }

    /** Between two expressions. */
    ghost predicate Ready()
      reads this, fs
    {
      fs.Rep() && CanStart(ops, fs.abs) && |sc.locals| == fs.abs.nactvar && GoodTokens(ops, toks)
    }

    /** From state g0 with code c0 on, the expression x has been compiled; e is its descriptor. */
    ghost predicate Compiling(g0: Gen, c0: seq<CInstr>, x: Expr, e: CExp)
      reads this, fs
    {
      && fs.abs == Compile(ops, g0, x).0 && fs.Holds(e, Compile(ops, g0, x).1)
      && LinksKept(g0, NoExp(), c0, fs.code) && WFExpr(ops, x, g0.nactvar) && GoodTokens(ops, toks)
    }

    /** The outcome of reading what `p` says: it fails if reading does or the code does not
        fit, otherwise the expression has been compiled and its tokens are gone. */
    ghost predicate Reads(p: Parsed, g0: Gen, c0: seq<CInstr>, level: nat, r: Result<CExp>)
      reads this, fs
    {
      && (r.Success? <==> p.Some? && Compile(ops, g0, p.value.0).0.ok)
      && (r.Success? ==> toks == p.value.1 && nCcalls == level && Compiling(g0, c0, p.value.0, r.value))
    }

    lemma CompiledOk(g0: Gen, c0: seq<CInstr>, x: Expr, e: CExp)
      requires fs.Rep() && Compiling(g0, c0, x, e)
      ensures Compile(ops, g0, x).0.ok
    {
    }

    /** searchvar. */
    method FindVar(s: string) returns (i: int)
      ensures i == SearchVar(sc.locals, s)
    {
      i := |sc.locals| - 1;
      assert sc.locals[..|sc.locals|] == sc.locals;
      while i >= 0
        invariant -1 <= i < |sc.locals|
        invariant SearchVar(sc.locals[..i + 1], s) == SearchVar(sc.locals, s)
      {
        if sc.locals[i] == s { return; }
        assert sc.locals[..i + 1][..i] == sc.locals[..i];
        i := i - 1;
      }
    }

    /** singlevar. */
    method SingleVar(s: string) returns (r: Result<CExp>)
      requires Ready()
      modifies fs
      ensures r.Success? <==> Compile(ops, old(fs.abs), Resolve(sc, s)).0.ok
      ensures r.Success? ==> Compiling(old(fs.abs), old(fs.code), Resolve(sc, s), r.value)
    {
      hide CodeGen.AddK, LinksKept, WFGen, Chain, GoodTokens, Compile, ConstIndex, CodeRep, CanStart, ExpRep, InitCExp;
      LinksRefl(fs.abs, NoExp(), fs.code);
      var i := FindVar(s);
      if i >= 0 {
        CompileLocal(ops, fs.abs, i);
        InitRep(fs.code, VLOCAL, i);
        return Success(InitCExp(VLOCAL, i));
      }
      var u := SearchVar(sc.upvals, s);
      if u >= 0 {
        CompileUpval(ops, fs.abs, u);
        InitRep(fs.code, VUPVAL, u);
        return Success(InitCExp(VUPVAL, u));
      }
      CompileGlobal(ops, fs.abs, s);
      var k :- fs.AddK(Str(s));
      InitRep(fs.code, VGLOBAL, k);
      return Success(InitCExp(VGLOBAL, k));
    }

    /** codestring, for checkname and string literals. */
    method CodeString(s: string) returns (r: Result<CExp>)
      requires fs.Rep() && GoodTokens(ops, toks)
      modifies fs
      ensures r.Success? <==> Compile(ops, old(fs.abs), EStr(s)).0.ok
      ensures r.Success? ==> Compiling(old(fs.abs), old(fs.code), EStr(s), r.value)
    {
      hide CodeGen.AddK, LinksKept, Chain, GoodTokens, Compile, ConstIndex, CodeRep, ExpRep, InitCExp;
      LinksRefl(fs.abs, NoExp(), fs.code);
      CompileString(ops, fs.abs, s);
      var k :- fs.AddK(Str(s));
      InitRep(fs.code, VK, k);
      return Success(InitCExp(VK, k));
    }

    /** prefixexp, after `( expr )`. */
    method Parenthesized(v: CExp, ghost g0: Gen, ghost c0: seq<CInstr>, ghost x: Expr) returns (r: Result<CExp>)
      requires CanStart(ops, g0) && Compiling(g0, c0, x, v)
      modifies fs
      ensures r.Success? <==> Compile(ops, g0, EParen(x)).0.ok
      ensures r.Success? ==> Compiling(g0, c0, EParen(x), r.value)
    {
      hide CanStart, GoodTokens, LinksKept, CodeRep, Chain, ConstIndex, CodeGen.DischargeVars, Frame, ExpRep, Inv,
          Compile, WFExpr, WFGen, ListsOk, Held;
      ghost var g1, a1, c1 := fs.abs, Compile(ops, g0, x).1, fs.code;
      CompileKeeps(ops, g0, x);
      CompileParenIs(ops, g0, x);
      WFNested(ops, NOT, x, g0.nactvar);
      InvParts(ops, g1, a1, g0.freereg);
      r := fs.DischargeVars(v, a1, g0.freereg);
      if r.Success? { LinksTrans(g0, NoExp(), c0, g1, a1, c1, fs.code); }
    }

    /** The unary operator of subexpr. */
    method Unary(op: UnOpr, v: CExp, ghost g0: Gen, ghost c0: seq<CInstr>, ghost x: Expr) returns (r: Result<CExp>)
      requires CanStart(ops, g0) && Compiling(g0, c0, x, v)
      modifies fs
      ensures r.Success? <==> Compile(ops, g0, EUn(op, x)).0.ok
      ensures r.Success? ==> Compiling(g0, c0, EUn(op, x), r.value)
    {
      hide CanStart, GoodTokens, LinksKept, CodeRep, Chain, ConstIndex, CodeGen.Prefix, Frame, ExpRep, Inv, Compile,
          WFExpr;
      ghost var g1, a1, c1 := fs.abs, Compile(ops, g0, x).1, fs.code;
      CompileKeeps(ops, g0, x);
      CompileUnIs(ops, g0, op, x);
      WFNested(ops, op, x, g0.nactvar);
      r := fs.Prefix(ops, op, v, a1, g0.freereg);
      if r.Success? { LinksTrans(g0, NoExp(), c0, g1, a1, c1, fs.code); }
    }

    /** prefixexp. */
    method PrefixExp() returns (r: Result<CExp>)
      requires Ready() && toks != []
      modifies this, fs
      ensures Reads(ParsePrefix(sc, old(toks), old(nCcalls)), old(fs.abs), old(fs.code), old(nCcalls), r)
      decreases |toks|, 1
    {
      hide Compile, WFExpr, CanStart, GoodTokens, LinksKept, CodeRep, Chain, ConstIndex, ParseSub, Resolve, ExpRep;
      ghost var g0, c0, ts := fs.abs, fs.code, toks;
      TailTokens(ops, toks, 1);
      match toks[0] {
        case NAME(s) =>
          r := SingleVar(s);
          toks := toks[1..];
        case LPAREN =>
          toks := toks[1..];
          ghost var p := ParseSub(sc, toks, 0, nCcalls);
          if p.Some? { ParenGrows(ops, g0, p.value.0); }
          var v :- SubExpr(0);
          if toks == [] || !toks[0].RPAREN? {
            return Failure(UnexpectedSymbol);
          }
          TailTokens(ops, toks, 1);
          toks := toks[1..];
          r := Parenthesized(v, g0, c0, p.value.0);
        case _ => return Failure(UnexpectedSymbol);
      }
    }

    /** field, after the dot: v.s */
    method Field(v: CExp, s: string, ghost g0: Gen, ghost c0: seq<CInstr>, ghost x: Expr) returns (r: Result<CExp>)
      requires CanStart(ops, g0) && Compiling(g0, c0, x, v)
      modifies fs
      ensures r.Success? <==> Compile(ops, g0, EIndex(x, EStr(s))).0.ok
      ensures r.Success? ==> Compiling(g0, c0, EIndex(x, EStr(s)), r.value)
    {
      hide GoodTokens, LinksKept, CodeRep, Chain, ConstIndex, Compile, Frame, ListsRep, Inv, WFGen, CodeGen.Exp2AnyReg,
          CodeGen.Indexed, Waiting, WFExpr, CanStart, ExpRep;
      ghost var g1, a1, c1, fr := fs.abs, Compile(ops, g0, x).1, fs.code, g0.freereg;
      IndexFirstKeeps(ops, g0, x);
      CompileField(ops, g0, x, s);
      var t :- fs.Exp2AnyReg(v, ops, a1, fr);
      ghost var g2, a2, c2 := fs.abs, CodeGen.Exp2AnyReg(g1, a1).1, fs.code;
      var key :- CodeString(s);
      ghost var g3, a3, c3 := fs.abs, Compile(ops, g2, EStr(s)).1, fs.code;
      FieldKeyKeeps(ops, g0, g2, x, a2, fr, s);
      WaitingRep(ops, g2, a2, fr, g2.freereg, c2, c3, t);
      r := fs.Indexed(t, key, ops, a2, a3, fr, g2.freereg);
      if r.Success? { LinksFour(g0, c0, g1, a1, c1, g2, c2, g3, a3, c3, fs.code); }
    }

    /** `.` name after v. */
    method DotName(v: CExp, ghost g0: Gen, ghost c0: seq<CInstr>, ghost x: Expr) returns (r: Result<CExp>)
      requires fs.Rep() && CanStart(ops, g0) && Compiling(g0, c0, x, v) && |toks| >= 2 && toks[1].NAME?
      modifies this`toks, fs
      ensures Reads(Some((EIndex(x, EStr(old(toks)[1].s)), old(toks)[2..])), g0, c0, nCcalls, r)
      ensures r.Success? ==> fs.Rep()
    {
      hide GoodTokens, LinksKept, CodeRep, Chain, ConstIndex, Compile, WFExpr, CanStart, ExpRep;
      TailTokens(ops, toks, 2);
      r := Field(v, toks[1].s, g0, c0, x);
      if r.Success? { toks := toks[2..]; }
    }

    /** `[` expr `]` after v. */
    method Subscript(v: CExp, ghost g0: Gen, ghost c0: seq<CInstr>, ghost x: Expr) returns (r: Result<CExp>)
      requires fs.Rep() && CanStart(ops, g0) && Compiling(g0, c0, x, v) && |sc.locals| == g0.nactvar
      requires toks != [] && toks[0].LBRACKET?
      modifies this, fs
      ensures Reads(BracketRead(sc, x, old(toks), old(nCcalls)), g0, c0, old(nCcalls), r)
      ensures r.Success? ==> fs.Rep()
      decreases |toks|, 1
    {
      hide GoodTokens, LinksKept, CodeRep, Chain, ConstIndex, Compile, Frame, ListsRep, Inv, WFGen, CodeGen.Exp2AnyReg,
          CodeGen.Exp2Val, CodeGen.Indexed, Waiting, ParseSub, WFExpr, CanStart, ExpRep;
      ghost var g1, a1, c1, fr := fs.abs, Compile(ops, g0, x).1, fs.code, g0.freereg;
      IndexFirstKeeps(ops, g0, x);
      ghost var p := ParseSub(sc, toks[1..], 0, nCcalls);
      ghost var y := Tree(p);
      CompileIndexed(ops, g0, x, y);
      var t :- fs.Exp2AnyReg(v, ops, a1, fr);
      ghost var g2, a2, c2 := fs.abs, CodeGen.Exp2AnyReg(g1, a1).1, fs.code;
      TailTokens(ops, toks, 1);
      Next();
      var key :- SubExpr(0);
      ghost var g3, a3, c3 := fs.abs, Compile(ops, g2, y).1, fs.code;
      WaitingRep(ops, g2, a2, fr, g2.freereg, c2, c3, t);
      WFBinary(ops, AND, x, y, g0.nactvar);
      r := CloseBracket(t, key, g2, c2, y, a2, fr);
      if r.Success? {
        LinksTrans(g1, a1, c1, g2, NoExp(), c2, fs.code);
        LinksTrans(g0, NoExp(), c0, g1, a1, c1, fs.code);
      }
    }

    /** The end of yindex, and luaK_indexed. */
    method CloseBracket(t: CExp, key: CExp, ghost g2: Gen, ghost c2: seq<CInstr>, ghost y: Expr, ghost a2: AExp,
        ghost fr: int) returns (r: Result<CExp>)
      requires CanStart(ops, g2) && Compiling(g2, c2, y, key) && Waiting(ops, g2, a2, fr, g2.freereg)
          && ExpRep(fs.code, t, a2)
      modifies this`toks, fs
      ensures
        var (g3, a3) := Compile(ops, g2, y);
        var (g4, a4) := CodeGen.Exp2Val(g3, a3);
        var (g5, a5) := CodeGen.Indexed(g4, a2, a4);
        && (r.Success? <==> g5.ok && old(toks) != [] && old(toks)[0].RBRACKET?)
        && (r.Success? ==>
            toks == old(toks)[1..] && GoodTokens(ops, toks) && fs.abs == g5 && fs.Holds(r.value, a5)
            && LinksKept(g2, NoExp(), c2, fs.code))
    {
      hide GoodTokens, LinksKept, CodeRep, Chain, ConstIndex, Compile, Frame, ListsRep, Inv, WFGen, CodeGen.Exp2Val,
          CodeGen.Indexed, Waiting, WFExpr;
      ghost var g3, a3, c3 := fs.abs, Compile(ops, g2, y).1, fs.code;
      CompileKeeps(ops, g2, y);
      var key' :- fs.Exp2Val(key, ops, a3, g2.freereg);
      Exp2ValKeeps(ops, g3, a3, g2.freereg);
      ghost var g4, a4, c4 := fs.abs, CodeGen.Exp2Val(g3, a3).1, fs.code;
      if toks == [] || !toks[0].RBRACKET? {
        return Failure(UnexpectedSymbol);
      }
      TailTokens(ops, toks, 1);
      Next();
      WaitingStill(ops, g2, g4, a2, fr, g2.freereg);
      WaitingRep(ops, g2, a2, fr, g2.freereg, c3, c4, t);
      r := fs.Indexed(t, key', ops, a2, a4, fr, g2.freereg);
      if r.Success? {
        LinksTrans(g3, a3, c3, g4, a4, c4, fs.code);
        LinksTrans(g2, NoExp(), c2, g3, a3, c3, fs.code);
      }
    }

    method Next()
      requires toks != []
      modifies this`toks
      ensures toks == old(toks)[1..]
    {
      toks := toks[1..];
    }

    /** One turn of the loop of subexpr. */
    method NextOperator(op: BinOpr, v: CExp, ghost g0: Gen, ghost c0: seq<CInstr>, ghost x: Expr)
        returns (r: Result<CExp>)
      requires fs.Rep() && CanStart(ops, g0) && Compiling(g0, c0, x, v) && |sc.locals| == g0.nactvar && toks != []
      modifies this, fs
      ensures Reads(OperandRead(op, x, ParseSub(sc, old(toks)[1..], Right(op), old(nCcalls))), g0, c0, old(nCcalls), r)
      ensures r.Success? ==> fs.Rep()
      decreases |toks|, 7
    {
      hide GoodTokens, LinksKept, CodeRep, Chain, ConstIndex, Compile, ParseSub, WFExpr, CanStart, ExpRep;
      TailTokens(ops, toks, 1);
      toks := toks[1..];
      r := Binary(op, v, g0, c0, x);
    }

    /** A binary operator of subexpr: its right operand is read. */
    method Binary(op: BinOpr, v: CExp, ghost g0: Gen, ghost c0: seq<CInstr>, ghost x: Expr) returns (r: Result<CExp>)
      requires fs.Rep() && CanStart(ops, g0) && Compiling(g0, c0, x, v) && |sc.locals| == g0.nactvar
      modifies this, fs
      ensures Reads(OperandRead(op, x, ParseSub(sc, old(toks), Right(op), old(nCcalls))), g0, c0, old(nCcalls), r)
      decreases |toks|, 6
    {
      hide GoodTokens, LinksKept, CodeRep, Chain, ConstIndex, Compile, Frame, ListsRep, Inv, WFGen, CodeGen.Infix,
          CodeGen.Posfix, ParseSub, WFExpr, CanStart, ExpRep;
      ghost var g1, a1, c1 := fs.abs, Compile(ops, g0, x).1, fs.code;
      FirstOperandKeeps(ops, op, g0, x);
      ghost var p := ParseSub(sc, toks, Right(op), nCcalls);
      ghost var y := Tree(p);
      CompileBinary(ops, g0, op, x, y);
      var e1 :- fs.Infix(op, v, ops, a1, g0.freereg);
      ghost var g2, c2 := fs.abs, fs.code;
      var e2 :- SubExpr(Right(op));
      r := FinishBinary(op, e1, e2, g0, c0, x, c1, g2, c2, y);
    }

    method FinishBinary(op: BinOpr, e1: CExp, e2: CExp, ghost g0: Gen, ghost c0: seq<CInstr>, ghost x: Expr,
                        ghost c1: seq<CInstr>, ghost g2: Gen, ghost c2: seq<CInstr>, ghost y: Expr)
                            returns (r: Result<CExp>)
      requires Infixed(ops, op, g0, c0, x, c1, c2, e1)
          && g2 == CodeGen.Infix(Compile(ops, g0, x).0, op, Compile(ops, g0, x).1).0
      requires Compiling(g2, c2, y, e2) && g2.nactvar == g0.nactvar
      modifies fs
      ensures r.Success? <==> Compile(ops, g0, EBin(op, x, y)).0.ok
      ensures r.Success? ==> Compiling(g0, c0, EBin(op, x, y), r.value)
    {
      hide GoodTokens, LinksKept, CodeRep, Chain, ConstIndex, Compile, Frame, ListsRep, Inv, CodeGen.Infix,
          CodeGen.Posfix, FirstReady, WFExpr, CanStart, ExpRep;
      SecondOperandKeeps(ops, op, g0, c0, x, c1, c2, e1, y, fs.code);
      CompileBinary(ops, g0, op, x, y);
      ghost var a2 := CodeGen.Infix(Compile(ops, g0, x).0, op, Compile(ops, g0, x).1).1;
      ghost var g3, a3, c3 := fs.abs, Compile(ops, g2, y).1, fs.code;
      r := fs.Posfix(ops, op, e1, e2, a2, a3, g0.freereg, g2.freereg);
      if r.Success? { LinksTrans(g0, NoExp(), c0, g3, a3, c3, fs.code); }
    }

    /** primaryexp. */
    method PrimaryExp() returns (r: Result<CExp>)
      requires Ready() && toks != []
      modifies this, fs
      ensures Reads(ParsePrimary(sc, old(toks), old(nCcalls)), old(fs.abs), old(fs.code), old(nCcalls), r)
      decreases |toks|, 2
    {
      hide Compile, WFExpr, CanStart, GoodTokens, LinksKept, CodeRep, Chain, ConstIndex, ParseSub, ParsePrefix, ExpRep;
      ghost var g0, c0, level := fs.abs, fs.code, nCcalls;
      ghost var first := ParsePrefix(sc, toks, nCcalls);
      ghost var x := Tree(first);
      if first.Some? { SuffixesGrow(ops, g0, sc, x, first.value.1, level); }
      var v :- PrefixExp();
      r := Suffixes(v, g0, c0, x);
    }

    /** The loop of primaryexp, after v. */
    method Suffixes(v0: CExp, ghost g0: Gen, ghost c0: seq<CInstr>, ghost x0: Expr) returns (r: Result<CExp>)
      requires fs.Rep() && CanStart(ops, g0) && Compiling(g0, c0, x0, v0) && |sc.locals| == g0.nactvar
      modifies this, fs
      ensures Reads(ParseSuffixes(sc, x0, old(toks), old(nCcalls)), g0, c0, old(nCcalls), r)
      decreases |toks|, 2
    {
      hide Compile, CanStart, ParseSub, ParseSuffixes, BracketRead, LexState.Compiling, FuncState.Rep;
      ghost var p, level, n := ParseSuffixes(sc, x0, toks, nCcalls), nCcalls, |toks|;
      CompiledOk(g0, c0, x0, v0);
      var v := v0;
      ghost var x := x0;
      while toks != []
        invariant |toks| <= n && fs.Rep() && nCcalls == level && Compiling(g0, c0, x, v) && Compile(ops, g0, x).0.ok
        invariant p == ParseSuffixes(sc, x, toks, level)
        decreases |toks|
      {
        SuffixStep(sc, x, toks, level);
        match toks[0] {
          case DOT =>
            if |toks| < 2 || !toks[1].NAME? { return Failure(UnexpectedSymbol); }
            var s := toks[1].s;
            SuffixesGrow(ops, g0, sc, EIndex(x, EStr(s)), toks[2..], level);
            v :- DotName(v, g0, c0, x);
            x := EIndex(x, EStr(s));
          case LBRACKET =>
            ghost var b := BracketRead(sc, x, toks, level);
            if b.Some? { SuffixesGrow(ops, g0, sc, b.value.0, b.value.1, level); }
            v :- Subscript(v, g0, c0, x);
            x := b.value.0;
          case LPAREN => return Failure(UnexpectedSymbol);
          case STRING(_) => return Failure(UnexpectedSymbol);
          case LBRACE => return Failure(UnexpectedSymbol);
          case COLON => return Failure(UnexpectedSymbol);
          case _ => return Success(v);
        }
      }
      SuffixEnd(sc, x, level);
      return Success(v);
    }

    /** simpleexp. */
    method SimpleExp() returns (r: Result<CExp>)
      requires Ready() && toks != []
      modifies this, fs
      ensures Reads(ParseSimple(sc, old(toks), old(nCcalls)), old(fs.abs), old(fs.code), old(nCcalls), r)
      decreases |toks|, 3
    {
      hide CanStart, GoodTokens, LinksKept, CodeRep, Chain, ConstIndex, ParsePrefix, ParseSuffixes, CodeGen.AddK,
          Compile, ExpRep, InitCExp, WFExpr, Inv, WFGen, ListsRep;
      LinksRefl(fs.abs, NoExp(), fs.code);
      NumberToken(ops, toks);
      TailTokens(ops, toks, 1);
      match toks[0] {
        case NUMBER(n) => r := Literal(VKNUM, n, ENum(n));
        case STRING(s) => r := CodeString(s);
        case TNIL => r := Literal(VNIL, Num(0), ENil);
        case TTRUE => r := Literal(VTRUE, Num(0), ETrue);
        case TFALSE => r := Literal(VFALSE, Num(0), EFalse);
        case _ =>
          r := PrimaryExp();
          return;
      }
      toks := toks[1..];
    }

    /** init_exp for a literal. */
    method Literal(k: Kind, n: Num, ghost x: Expr) returns (r: Result<CExp>)
      requires fs.Rep() && GoodTokens(ops, toks)
      requires match k
               case VKNUM => x == ENum(n) && !ops.isNaN(n)
               case VNIL => x == ENil && n == Num(0)
               case VTRUE => x == ETrue && n == Num(0)
               case VFALSE => x == EFalse && n == Num(0)
               case _ => false
      ensures r.Success? && Compile(ops, fs.abs, x).0.ok && Compiling(fs.abs, fs.code, x, r.value)
    {
      hide GoodTokens, LinksKept, CodeRep, Chain, ConstIndex, Compile, ExpRep;
      CompileLiteral(ops, fs.abs, n);
      LinksRefl(fs.abs, NoExp(), fs.code);
      InitRep(fs.code, k, 0);
      return Success(InitCExp(k, 0).(nval := n));
    }

    /** The start of subexpr. */
    method Operand() returns (r: Result<CExp>)
      requires Ready() && toks != []
      modifies this, fs
      ensures Reads(ParseOperand(sc, old(toks), old(nCcalls)), old(fs.abs), old(fs.code), old(nCcalls), r)
      decreases |toks|, 4
    {
      hide Compile, WFExpr, CanStart, GoodTokens, LinksKept, CodeRep, Chain, ConstIndex, ParseSimple, ParseSub, ExpRep;
      var uop := GetUnOpr(toks[0]);
      if uop.None? {
        r := SimpleExp();
        return;
      }
      ghost var g0, c0 := fs.abs, fs.code;
      ghost var q := ParseSub(sc, toks[1..], UNARY_PRIORITY, nCcalls);
      ghost var x := Tree(q);
      UnGrows(ops, g0, uop.value, x);
      TailTokens(ops, toks, 1);
      toks := toks[1..];
      var v :- SubExpr(UNARY_PRIORITY);
      r := Unary(uop.value, v, g0, c0, x);
    }

    /** subexpr. */
    method SubExpr(limit: nat) returns (r: Result<CExp>)
      requires Ready()
      modifies this, fs
      ensures Reads(ParseSub(sc, old(toks), limit, old(nCcalls)), old(fs.abs), old(fs.code), old(nCcalls), r)
      decreases |toks|, 5
    {
      hide Compile, WFExpr, CanStart, GoodTokens, LinksKept, CodeRep, Chain, ConstIndex, ParseOperand, ExpRep;
      ghost var g0, c0 := fs.abs, fs.code;
      if nCcalls + 1 > LUAI_MAXCCALLS {
        return Failure(TooManyLevels);
      }
      if toks == [] {
        return Failure(UnexpectedSymbol);
      }
      nCcalls := nCcalls + 1;
      ghost var q := ParseOperand(sc, toks, nCcalls);
      ghost var x := Tree(q);
      if q.Some? { LoopGrows(ops, g0, sc, x, q.value.1, limit, nCcalls); }
      var v :- Operand();
      v :- OperatorLoop(limit, v, g0, c0, x);
      nCcalls := nCcalls - 1;
      return Success(v);
    }

    /** The loop of subexpr, after v. */
    method OperatorLoop(limit: nat, v0: CExp, ghost g0: Gen, ghost c0: seq<CInstr>, ghost x0: Expr)
        returns (r: Result<CExp>)
      requires fs.Rep() && nCcalls > 0 && CanStart(ops, g0) && Compiling(g0, c0, x0, v0) && |sc.locals| == g0.nactvar
      modifies this, fs
      ensures Reads(ParseLoop(sc, x0, old(toks), limit, old(nCcalls)), g0, c0, old(nCcalls), r)
      decreases |toks|, 8
    {
      hide Compile, CanStart, ParseSub, LexState.Compiling, FuncState.Rep;
      ghost var p, level, n := ParseLoop(sc, x0, toks, limit, nCcalls), nCcalls, |toks|;
      CompiledOk(g0, c0, x0, v0);
      var v := v0;
      ghost var x := x0;
      while toks != [] && GetBinOpr(toks[0]).Some? && Left(GetBinOpr(toks[0]).value) > limit
        invariant |toks| <= n && fs.Rep() && nCcalls == level && Compiling(g0, c0, x, v) && Compile(ops, g0, x).0.ok
        invariant p == ParseLoop(sc, x, toks, limit, level)
        decreases |toks|
      {
        var op := GetBinOpr(toks[0]).value;
        ghost var q := OperandRead(op, x, ParseSub(sc, toks[1..], Right(op), level));
        if q.Some? { LoopGrows(ops, g0, sc, q.value.0, q.value.1, limit, level); }
        v :- NextOperator(op, v, g0, c0, x);
        x := q.value.0;
      }
      return Success(v);
    }
  }

  /** What reading `[` expr `]` gives. */
  function BracketRead(sc: Scope, x: Expr, ts: seq<Token>, level: nat): Parsed
    requires ts != []
  {
    var p := ParseSub(sc, ts[1..], 0, level);
    if p.Some? && p.value.1 != [] && p.value.1[0].RBRACKET? then Some((EIndex(x, p.value.0), p.value.1[1..])) else None
  }

  /** One turn of the loop of primaryexp. */
  lemma SuffixStep(sc: Scope, x: Expr, ts: seq<Token>, level: nat)
    requires ts != []
    ensures ParseSuffixes(sc, x, ts, level) ==
            match ts[0]
            case DOT => if |ts| >= 2 && ts[1].NAME? then ParseSuffixes(sc, EIndex(x, EStr(ts[1].s)), ts[2..], level)
                else None
            case LBRACKET => AfterBracket(sc, BracketRead(sc, x, ts, level), level)
            case LPAREN => None
            case STRING(_) => None
            case LBRACE => None
            case COLON => None
            case _ => Some((x, ts))
    ensures ts[0].LBRACKET? && BracketRead(sc, x, ts, level).Some? ==> |BracketRead(sc, x, ts, level).value.1| < |ts|
  {
    hide ParseSub;
  }

  function AfterBracket(sc: Scope, p: Parsed, level: nat): Parsed {
    if p.Some? then ParseSuffixes(sc, p.value.0, p.value.1, level) else None
  }

  lemma SuffixEnd(sc: Scope, x: Expr, level: nat)
    ensures ParseSuffixes(sc, x, [], level) == Some((x, []))
  {
  }

  function Tree(p: Parsed): Expr {
    if p.Some? then p.value.0 else ENil
  }

  function OperandRead(op: BinOpr, x: Expr, p: Parsed): Parsed {
    if p.Some? then Some((EBin(op, x, p.value.0), p.value.1)) else None
  }

  /** Frames through a first operand, what becomes of it, a second operand, and an operator. */
  lemma LinksFour(g0: Gen, c0: seq<CInstr>, g1: Gen, a1: AExp, c1: seq<CInstr>, g2: Gen, c2: seq<CInstr>, g3: Gen,
      a3: AExp, c3: seq<CInstr>, c4: seq<CInstr>)
    requires LinksKept(g0, NoExp(), c0, c1) && Frame(g0, NoExp(), g1, a1)
    requires LinksKept(g1, a1, c1, c2) && Frame(g1, a1, g2, NoExp())
    requires LinksKept(g2, NoExp(), c2, c3) && Frame(g2, NoExp(), g3, a3) && LinksKept(g3, a3, c3, c4)
    ensures LinksKept(g0, NoExp(), c0, c4)
  {
    hide LinksKept, Frame;
    LinksTrans(g2, NoExp(), c2, g3, a3, c3, c4);
    LinksTrans(g1, a1, c1, g2, NoExp(), c2, c4);
    LinksTrans(g0, NoExp(), c0, g1, a1, c1, c4);
  }
}
