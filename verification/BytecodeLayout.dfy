/** The format of a precompiled chunk, byte by byte, as the virtual machine of Lua 5.1 on a
    little-endian machine with 4-byte int and size_t and 8-byte numbers writes and expects it. */
module BytecodeLayout {
  import opened Common
  import opened Bytecode
  import opened BytecodeProof

  /** Four bytes, the lowest first. */
  function Four(x: int): Bytes
    requires 0 <= x < 0x1_0000_0000
  {
    [x % 256, (x / 0x100) % 256, (x / 0x1_0000) % 256, x / 0x100_0000]
  }

  /** An int, in two's complement. */
  function IntLayout(x: int): Bytes
    requires IsInt(x)
  {
    Four(if x < 0 then 0x1_0000_0000 + x else x)
  }

  /** A string: its size with the final zero, its bytes, and the zero; NULL is size 0. */
  function TextLayout(s: Option<Text>): Bytes
    requires TextFits(s)
  {
    match s
    case None => [0, 0, 0, 0]
    case Some(t) => Four(|t| + 1) + t + [0]
  }

  /** A constant: nil, boolean, number or string, by its type. */
  function ConstLayout(c: Const): Bytes
    requires ConstFits(c)
  {
    match c
    case KNil => [0]
    case KBool(b) => [1, if b then 1 else 0]
    case KNumber(bits) => [3] + bits
    case KString(s) => [4] + TextLayout(s)
  }

  function All(parts: seq<Bytes>): Bytes {
    if parts == [] then [] else parts[0] + All(parts[1..])
  }

  /** A vector: how many elements it has, and the elements. */
  function Counted(parts: seq<Bytes>): Bytes
    requires |parts| < 0x8000_0000
  {
    IntLayout(|parts|) + All(parts)
  }

  function Ints(xs: seq<int>): (parts: seq<Bytes>)
    requires forall i :: 0 <= i < |xs| ==> IsInt(xs[i])
    ensures |parts| == |xs|
  {
    seq(|xs|, i requires 0 <= i < |xs| => IntLayout(xs[i]))
  }

  function Consts(ks: seq<Const>): (parts: seq<Bytes>)
    requires forall i :: 0 <= i < |ks| ==> ConstFits(ks[i])
    ensures |parts| == |ks|
  {
    seq(|ks|, i requires 0 <= i < |ks| => ConstLayout(ks[i]))
  }

  function LocVarLayout(v: LocVar): Bytes
    requires LocVarFits(v)
  {
    TextLayout(v.varname) + IntLayout(v.startpc) + IntLayout(v.endpc)
  }

  function LocVars(vs: seq<LocVar>): (parts: seq<Bytes>)
    requires forall i :: 0 <= i < |vs| ==> LocVarFits(vs[i])
    ensures |parts| == |vs|
  {
    seq(|vs|, i requires 0 <= i < |vs| => LocVarLayout(vs[i]))
  }

  function Texts(ts: seq<Option<Text>>): (parts: seq<Bytes>)
    requires forall i :: 0 <= i < |ts| ==> TextFits(ts[i])
    ensures |parts| == |ts|
  {
    seq(|ts|, i requires 0 <= i < |ts| => TextLayout(ts[i]))
  }

  /** A function: source, lines, four bytes, code, constants, nested functions, debug information.
      A source equal to that of the enclosing function is left out, and so are all sources and
      the debug information of a stripped dump. */
  function FunctionLayout(f: Proto, parent: Option<Text>, strip: bool): Bytes
    requires Fits(f)
    decreases f, 1
  {
    TextLayout(if strip || f.source == parent then None else f.source)
    + IntLayout(f.linedefined) + IntLayout(f.lastlinedefined)
    + [f.nups, f.numparams, f.isVararg, f.maxstacksize]
    + Counted(Ints(f.code)) + Counted(Consts(f.k)) + Counted(Protos(f.p, f.source, strip))
    + if strip then [0, 0, 0, 0, 0, 0, 0, 0, 0, 0, 0, 0]
      else Counted(Ints(f.lineinfo)) + Counted(LocVars(f.locvars)) + Counted(Texts(f.upvalues))
  }

  function Protos(ps: seq<Proto>, parent: Option<Text>, strip: bool): (parts: seq<Bytes>)
    requires forall i :: 0 <= i < |ps| ==> Fits(ps[i])
    ensures |parts| == |ps|
    decreases ps, 0
  {
    if ps == [] then [] else [FunctionLayout(ps[0], parent, strip)] + Protos(ps[1..], parent, strip)
  }

  /** A chunk: ESC "Lua", version 5.1, format 0, little-endian, the four sizes, floating-point
      numbers, and the main function. */
  function ChunkLayout(f: Proto, strip: bool): Bytes
    requires Fits(f)
  {
    [0x1B, 0x4C, 0x75, 0x61, 0x51, 0, 1, 4, 4, 4, 8, 0] + FunctionLayout(f, None, strip)
  }

  // ----- the dump has this format -----

  lemma WordIs(x: int)
    requires 0 <= x < 0x1_0000_0000
    ensures x < Power(4) && Word(x, 4) == Four(x)
  {
    Powers();
    assert Power(3) == 0x100_0000 && Power(2) == 0x1_0000 && Power(1) == 0x100;
    assert Word(x, 4) == [x % 256] + Word(x / 256, 3);
    assert Word(x / 256, 3) == [(x / 256) % 256] + Word(x / 256 / 256, 2);
    assert Word(x / 256 / 256, 2) == [(x / 256 / 256) % 256] + Word(x / 256 / 256 / 256, 1);
    assert Word(x / 256 / 256 / 256, 1) == [x / 256 / 256 / 256 % 256];
  }

  lemma IntIs(x: int)
    requires IsInt(x)
    ensures IntBytes(x) == IntLayout(x)
  {
    WordIs(if x < 0 then 0x1_0000_0000 + x else x);
  }

  lemma TextIs(s: Option<Text>)
    requires TextFits(s)
    ensures DumpText(s) == TextLayout(s)
  {
    hide Word, Four;
    WordIs(0);
    assert Four(0) == [0, 0, 0, 0] by { FourZero(); }
    if s.Some? { WordIs(|s.value| + 1); }
  }

  lemma FourZero()
    ensures Four(0) == [0, 0, 0, 0]
  {
  }

  lemma ConstIs(c: Const)
    requires ConstFits(c)
    ensures DumpConst(c) == ConstLayout(c)
  {
    if c.KString? { TextIs(c.s); }
  }

  lemma AllCons(a: Bytes, parts: seq<Bytes>)
    ensures All([a] + parts) == a + All(parts)
  {
    assert ([a] + parts)[1..] == parts;
  }

  lemma {:induction false} IntsAre(xs: seq<int>)
    requires forall i :: 0 <= i < |xs| ==> IsInt(xs[i])
    ensures DumpInts(xs) == All(Ints(xs))
    decreases |xs|
  {
    if xs != [] {
      IntIs(xs[0]);
      IntsAre(xs[1..]);
      assert Ints(xs) == [IntLayout(xs[0])] + Ints(xs[1..]);
      AllCons(IntLayout(xs[0]), Ints(xs[1..]));
    }
  }

  lemma {:induction false} ConstsAre(ks: seq<Const>)
    requires forall i :: 0 <= i < |ks| ==> ConstFits(ks[i])
    ensures DumpConsts(ks) == All(Consts(ks))
    decreases |ks|
  {
    hide DumpConst, ConstLayout, ConstFits;
    if ks != [] {
      ConstIs(ks[0]);
      ConstsAre(ks[1..]);
      assert Consts(ks) == [ConstLayout(ks[0])] + Consts(ks[1..]);
      AllCons(ConstLayout(ks[0]), Consts(ks[1..]));
    }
  }

  lemma {:induction false} LocVarsAre(vs: seq<LocVar>)
    requires forall i :: 0 <= i < |vs| ==> LocVarFits(vs[i])
    ensures DumpLocVars(vs) == All(LocVars(vs))
    decreases |vs|
  {
    hide DumpLocVar, LocVarLayout, LocVarFits;
    if vs != [] {
      LocVarIs(vs[0]);
      LocVarsAre(vs[1..]);
      assert LocVars(vs) == [LocVarLayout(vs[0])] + LocVars(vs[1..]);
      AllCons(LocVarLayout(vs[0]), LocVars(vs[1..]));
    }
  }

  lemma LocVarIs(v: LocVar)
    requires LocVarFits(v)
    ensures DumpLocVar(v) == LocVarLayout(v)
  {
    hide DumpText, IntBytes, TextLayout, IntLayout;
    TextIs(v.varname);
    IntIs(v.startpc);
    IntIs(v.endpc);
    Assoc(TextLayout(v.varname), IntLayout(v.startpc), IntLayout(v.endpc));
  }

  lemma {:induction false} TextsAre(ts: seq<Option<Text>>)
    requires forall i :: 0 <= i < |ts| ==> TextFits(ts[i])
    ensures DumpTexts(ts) == All(Texts(ts))
    decreases |ts|
  {
    hide DumpText, TextLayout, TextFits;
    if ts != [] {
      TextIs(ts[0]);
      TextsAre(ts[1..]);
      assert Texts(ts) == [TextLayout(ts[0])] + Texts(ts[1..]);
      AllCons(TextLayout(ts[0]), Texts(ts[1..]));
    }
  }

  lemma DebugIs(f: Proto, strip: bool)
    requires Fits(f)
    ensures DumpDebug(f, strip) ==
        if strip then [0, 0, 0, 0, 0, 0, 0, 0, 0, 0, 0, 0]
        else Counted(Ints(f.lineinfo)) + Counted(LocVars(f.locvars)) + Counted(Texts(f.upvalues))
  {
    hide IntBytes, DumpInts, DumpLocVars, DumpTexts, IntLayout, All, Ints, LocVars, Texts;
    IntIs(0);
    assert IntLayout(0) == [0, 0, 0, 0] by { FourZero(); ZeroInt(); }
    IntIs(|f.lineinfo|);
    IntsAre(f.lineinfo);
    IntIs(|f.locvars|);
    LocVarsAre(f.locvars);
    IntIs(|f.upvalues|);
    TextsAre(f.upvalues);
  }

  lemma ZeroInt()
    ensures IntLayout(0) == [0, 0, 0, 0]
  {
  }

  lemma Regroup(a: Bytes, b: Bytes, c: Bytes, d: Bytes, e: Bytes, e': Bytes, g: Bytes, g': Bytes, h: Bytes, h': Bytes,
      i: Bytes)
    ensures a + (b + (c + (d + (e + (e' + (g + (g' + (h + (h' + i)))))))))
         == a + b + c + d + (e + e') + (g + g') + (h + h') + i
  {
  }

  lemma {:induction false} FunctionIs(f: Proto, parent: Option<Text>, strip: bool)
    requires Fits(f)
    ensures DumpFunction(f, parent, strip) == FunctionLayout(f, parent, strip)
    decreases f, 1
  {
    hide IntBytes, DumpInts, DumpText, DumpConsts, DumpProtos, DumpDebug, IntLayout, TextLayout, All, Ints, Consts,
        Protos, LocVars, Texts;
    var source := SourceOf(f, parent, strip);
    TextIs(source);
    IntIs(f.linedefined);
    IntIs(f.lastlinedefined);
    IntIs(|f.code|);
    IntsAre(f.code);
    IntIs(|f.k|);
    ConstsAre(f.k);
    IntIs(|f.p|);
    ProtosAre(f.p, f.source, strip);
    DebugIs(f, strip);
    Regroup(TextLayout(source), IntLayout(f.linedefined), IntLayout(f.lastlinedefined),
      [f.nups, f.numparams, f.isVararg, f.maxstacksize], IntLayout(|f.code|), All(Ints(f.code)), IntLayout(|f.k|),
      All(Consts(f.k)), IntLayout(|f.p|), All(Protos(f.p, f.source, strip)), DumpDebug(f, strip));
  }

  lemma {:induction false} ProtosAre(ps: seq<Proto>, parent: Option<Text>, strip: bool)
    requires forall i :: 0 <= i < |ps| ==> Fits(ps[i])
    ensures DumpProtos(ps, parent, strip) == All(Protos(ps, parent, strip))
    decreases ps, 0
  {
    hide DumpFunction, FunctionLayout, Fits;
    if ps != [] {
      FunctionIs(ps[0], parent, strip);
      ProtosAre(ps[1..], parent, strip);
      AllCons(FunctionLayout(ps[0], parent, strip), Protos(ps[1..], parent, strip));
    }
  }

  /** luaU_dump writes exactly this. */
  lemma DumpIs(f: Proto, strip: bool)
    requires Fits(f)
    ensures Dump(f, strip) == ChunkLayout(f, strip)
  {
    hide DumpFunction, FunctionLayout;
    FunctionIs(f, None, strip);
  }

  /** luaU_undump reads exactly this: a chunk in the format gives its function back just when every
      function has a source and the loader accepts it, and any other header is refused. */
  lemma UndumpReads(f: Proto, b: Bytes, calls: nat, check: Proto -> bool)
    requires Fits(f) && calls <= 200
    ensures Undump(ChunkLayout(f, false), calls, check) == Got(f, []) <==> AllSources(f) && Loadable(f, calls, check)
    ensures Undump(b, calls, check).Got? ==>
        |b| >= 12 && b[..12] == [0x1B, 0x4C, 0x75, 0x61, 0x51, 0, 1, 4, 4, 4, 8, 0]
  {
    hide ReadFunction, AllSources, Loadable, FunctionLayout, DumpFunction;
    DumpIs(f, false);
    RoundTrip(f, calls, check);
  }

  /** The main function of a stripped chunk is loaded with the source "=?". */
  lemma StrippedReads(f: Proto, calls: nat, check: Proto -> bool)
    requires Fits(f) && calls <= 200
    ensures var r := Undump(ChunkLayout(f, true), calls, check);
            r.Got? ==>
                r.value.source == Some([0x3D, 0x3F]) && r.value.code == f.code && r.value.k == f.k && r.rest == []
  {
    hide ReadFunction, Loadable, FunctionLayout, DumpFunction;
    DumpIs(f, true);
    Stripped(f, calls, check);
  }

  /** The constants, as they are read. */
  lemma ConstReads(c: Const, rest: Bytes)
    requires ConstFits(c)
    ensures ReadConst(ConstLayout(c) + rest) == Got(c, rest)
    ensures ReadConst([2] + rest) == Bad
  {
    ConstIs(c);
    ConstRead(c, rest);
    assert ([2] + rest)[0] == 2;
  }

  lemma ConstsLoad(ks: seq<Const>, rest: Bytes)
    requires forall i :: 0 <= i < |ks| ==> ConstFits(ks[i])
    ensures ReadConsts(All(Consts(ks)) + rest, |ks|) == Got(ks, rest)
  {
    hide ConstFits, ConstLayout, DumpConst, ReadConst;
    ConstsAre(ks);
    BytecodeProof.ConstsRead(ks, rest);
  }
}
