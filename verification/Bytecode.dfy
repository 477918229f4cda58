/** Precompiled functions and their binary form (ldump.c, lundump.c). */
module Bytecode {
  import opened Common

  type Byte = x: int | 0 <= x < 256

  type Bytes = seq<Byte>

  const INT_BYTES: nat := 4     // sizeof(int) and sizeof(Instruction)
  const SIZE_BYTES: nat := 4    // sizeof(size_t)
  const NUMBER_BYTES: nat := 8  // sizeof(lua_Number)
  const MAXCCALLS: nat := 200   // LUAI_MAXCCALLS

  // ----- machine words, the lowest byte first -----

  function Power(w: nat): (p: nat)
    ensures p > 0
  {
    if w == 0 then 1 else 256 * Power(w - 1)
  }

  function Word(x: nat, w: nat): (b: Bytes)
    requires x < Power(w)
    ensures |b| == w
  {
    if w == 0 then [] else [x % 256] + Word(x / 256, w - 1)
  }

  function FromWord(b: Bytes): (x: nat)
    ensures x < Power(|b|)
  {
    if b == [] then 0 else b[0] + 256 * FromWord(b[1..])
  }

  lemma {:induction false} WordBack(x: nat, w: nat)
    requires x < Power(w)
    ensures FromWord(Word(x, w)) == x
    decreases w
  {
    if w > 0 {
      WordBack(x / 256, w - 1);
      assert Word(x, w)[1..] == Word(x / 256, w - 1);
    }
  }

  const TWO31: int := 0x8000_0000
  const TWO32: int := 0x1_0000_0000

  lemma Powers()
    ensures Power(4) == TWO32
  {
    assert Power(2) == 65536;
  }

  /** An int, in two's complement. */
  function IntBytes(x: int): (b: Bytes)
    requires -TWO31 <= x < TWO31
    ensures |b| == INT_BYTES
  {
    Powers();
    Word(if x < 0 then x + TWO32 else x, 4)
  }

  function IntOf(b: Bytes): (x: int)
    requires |b| == INT_BYTES
    ensures -TWO31 <= x < TWO31
  {
    Powers();
    var u := FromWord(b);
    if u >= TWO31 then u - TWO32 else u
  }

  lemma IntBack(x: int)
    requires -TWO31 <= x < TWO31
    ensures IntOf(IntBytes(x)) == x
  {
    Powers();
    WordBack(if x < 0 then x + TWO32 else x, 4);
  }

  // ----- functions -----

  type Text = Bytes

  datatype Const = KNil | KBool(b: bool) | KNumber(bits: Bytes) | KString(s: Option<Text>)

  datatype LocVar = LocVar(varname: Option<Text>, startpc: int, endpc: int)

  datatype Proto = Proto(source: Option<Text>, linedefined: int, lastlinedefined: int,
    nups: Byte, numparams: Byte, isVararg: Byte, maxstacksize: Byte,
    code: seq<int>, k: seq<Const>, p: seq<Proto>, lineinfo: seq<int>, locvars: seq<LocVar>, upvalues: seq<Option<Text>>)

  const LUA_TNIL: Byte := 0
  const LUA_TBOOLEAN: Byte := 1
  const LUA_TNUMBER: Byte := 3
  const LUA_TSTRING: Byte := 4

  // ----- what fits the machine -----

  predicate IsInt(x: int) {
    -TWO31 <= x < TWO31
  }

  predicate TextFits(s: Option<Text>) {
    s.Some? ==> |s.value| + 1 < TWO32
  }

  predicate ConstFits(c: Const) {
    match c
    case KNumber(bits) => |bits| == NUMBER_BYTES
    case KString(s) => TextFits(s)
    case _ => true
  }

  predicate LocVarFits(v: LocVar) {
    TextFits(v.varname) && IsInt(v.startpc) && IsInt(v.endpc)
  }

  /** All numbers, sizes and texts have the range of their C types. */
  predicate Fits(f: Proto) {
    && TextFits(f.source) && IsInt(f.linedefined) && IsInt(f.lastlinedefined)
    && |f.code| < TWO31 && |f.k| < TWO31 && |f.p| < TWO31 && |f.lineinfo| < TWO31 && |f.locvars| < TWO31 &&
        |f.upvalues| < TWO31
    && (forall i :: 0 <= i < |f.code| ==> IsInt(f.code[i]))
    && (forall i :: 0 <= i < |f.lineinfo| ==> IsInt(f.lineinfo[i]))
    && (forall i :: 0 <= i < |f.k| ==> ConstFits(f.k[i]))
    && (forall i :: 0 <= i < |f.locvars| ==> LocVarFits(f.locvars[i]))
    && (forall i :: 0 <= i < |f.upvalues| ==> TextFits(f.upvalues[i]))
    && (forall i :: 0 <= i < |f.p| ==> Fits(f.p[i]))
  }

  // ----- the binary form -----

  function DumpText(s: Option<Text>): Bytes
    requires TextFits(s)
  {
    Powers();
    match s
    case None => Word(0, SIZE_BYTES)
    case Some(t) => Word(|t| + 1, SIZE_BYTES) + (t + [0])
  }

  function DumpInts(xs: seq<int>): (b: Bytes)
    requires forall i :: 0 <= i < |xs| ==> IsInt(xs[i])
    ensures |b| == INT_BYTES * |xs|
  {
    if xs == [] then []
    else
      assert IsInt(xs[0]);
      IntBytes(xs[0]) + DumpInts(xs[1..])
  }

  function DumpConst(c: Const): Bytes
    requires ConstFits(c)
  {
    match c
    case KNil => [LUA_TNIL]
    case KBool(b) => [LUA_TBOOLEAN, if b then 1 else 0]
    case KNumber(bits) => [LUA_TNUMBER] + bits
    case KString(s) => [LUA_TSTRING] + DumpText(s)
  }

  function DumpConsts(ks: seq<Const>): Bytes
    requires forall i :: 0 <= i < |ks| ==> ConstFits(ks[i])
  {
    if ks == [] then [] else DumpConst(ks[0]) + DumpConsts(ks[1..])
  }

  function DumpLocVar(v: LocVar): Bytes
    requires LocVarFits(v)
  {
    DumpText(v.varname) + (IntBytes(v.startpc) + IntBytes(v.endpc))
  }

  function DumpLocVars(vs: seq<LocVar>): Bytes
    requires forall i :: 0 <= i < |vs| ==> LocVarFits(vs[i])
  {
    if vs == [] then [] else DumpLocVar(vs[0]) + DumpLocVars(vs[1..])
  }

  function DumpTexts(ts: seq<Option<Text>>): Bytes
    requires forall i :: 0 <= i < |ts| ==> TextFits(ts[i])
  {
    if ts == [] then [] else DumpText(ts[0]) + DumpTexts(ts[1..])
  }

  /** The source is written only when it is not that of the enclosing function. */
  function SourceOf(f: Proto, parent: Option<Text>, strip: bool): Option<Text> {
    if f.source == parent || strip then None else f.source
  }

  function DumpDebug(f: Proto, strip: bool): Bytes
    requires Fits(f)
  {
    if strip then IntBytes(0) + (IntBytes(0) + IntBytes(0))
    else
      IntBytes(|f.lineinfo|)
      + (DumpInts(f.lineinfo)
      + (IntBytes(|f.locvars|) + (DumpLocVars(f.locvars) + (IntBytes(|f.upvalues|) + DumpTexts(f.upvalues)))))
  }

  function DumpFunction(f: Proto, parent: Option<Text>, strip: bool): Bytes
    requires Fits(f)
    decreases f, 1
  {
    DumpText(SourceOf(f, parent, strip)) + (IntBytes(f.linedefined) + (IntBytes(f.lastlinedefined) +
      ([f.nups, f.numparams, f.isVararg, f.maxstacksize] + (IntBytes(|f.code|) + (DumpInts(f.code) +
      (IntBytes(|f.k|)
          + (DumpConsts(f.k) + (IntBytes(|f.p|) + (DumpProtos(f.p, f.source, strip) + DumpDebug(f, strip))))))))))
  }

  function DumpProtos(ps: seq<Proto>, parent: Option<Text>, strip: bool): Bytes
    requires forall i :: 0 <= i < |ps| ==> Fits(ps[i])
    decreases ps, 0
  {
    if ps == [] then [] else DumpFunction(ps[0], parent, strip) + DumpProtos(ps[1..], parent, strip)
  }

  // ----- reading it -----

  datatype Read<T> = Got(value: T, rest: Bytes) | Bad {
    predicate IsFailure() { Bad? }

    function PropagateFailure<U>(): Read<U>
      requires Bad?
    {
      Bad
    }

    function Extract(): (T, Bytes)
      requires Got?
    {
      (value, rest)
    }
  }

  function Take(b: Bytes, n: nat): (r: Read<Bytes>)
    ensures r.Got? ==> |r.value| == n && b == r.value + r.rest
  {
    if n <= |b| then Got(b[..n], b[n..]) else Bad
  }

  /** LoadInt: a negative number is an error. */
  function ReadInt(b: Bytes): Read<nat> {
    var t := Take(b, INT_BYTES);
    if t.Bad? || IntOf(t.value) < 0 then Bad else Got(IntOf(t.value), t.rest)
  }

  /** LoadString: size zero is NULL; the byte after the text is dropped, whatever it is. */
  function ReadText(b: Bytes): Read<Option<Text>> {
    var t := Take(b, SIZE_BYTES);
    if t.Bad? then Bad
    else
      var size := FromWord(t.value);
      if size == 0 then Got(None, t.rest)
      else
        var s := Take(t.rest, size);
        if s.Bad? then Bad else Got(Some(s.value[..size - 1]), s.rest)
  }

  function IntsOf(b: Bytes, n: nat): seq<int>
    requires |b| == INT_BYTES * n
  {
    if n == 0 then [] else [IntOf(b[..4])] + IntsOf(b[4..], n - 1)
  }

  /** LoadVector of ints or instructions. */
  function ReadInts(b: Bytes, n: nat): Read<seq<int>> {
    var t := Take(b, INT_BYTES * n);
    if t.Bad? then Bad else Got(IntsOf(t.value, n), t.rest)
  }

  function ReadConst(b: Bytes): Read<Const> {
    if b == [] then Bad
    else if b[0] == LUA_TNIL then Got(KNil, b[1..])
    else if b[0] == LUA_TBOOLEAN then (if |b| < 2 then Bad else Got(KBool(b[1] != 0), b[2..]))
    else if b[0] == LUA_TNUMBER then
      var t := Take(b[1..], NUMBER_BYTES);
      if t.Bad? then Bad else Got(KNumber(t.value), t.rest)
    else if b[0] == LUA_TSTRING then
      var t := ReadText(b[1..]);
      if t.Bad? then Bad else Got(KString(t.value), t.rest)
    else Bad
  }

  function ReadConsts(b: Bytes, n: nat): Read<seq<Const>> {
    if n == 0 then Got([], b)
    else
      var c := ReadConst(b);
      if c.Bad? then Bad
      else
        var r := ReadConsts(c.rest, n - 1);
        if r.Bad? then Bad else Got([c.value] + r.value, r.rest)
  }

  function ReadLocVar(b: Bytes): Read<LocVar> {
    var t := ReadText(b);
    if t.Bad? then Bad
    else
      var s := ReadInt(t.rest);
      if s.Bad? then Bad
      else
        var e := ReadInt(s.rest);
        if e.Bad? then Bad else Got(LocVar(t.value, s.value, e.value), e.rest)
  }

  function ReadLocVars(b: Bytes, n: nat): Read<seq<LocVar>> {
    if n == 0 then Got([], b)
    else
      var c := ReadLocVar(b);
      if c.Bad? then Bad
      else
        var r := ReadLocVars(c.rest, n - 1);
        if r.Bad? then Bad else Got([c.value] + r.value, r.rest)
  }

  function ReadTexts(b: Bytes, n: nat): Read<seq<Option<Text>>> {
    if n == 0 then Got([], b)
    else
      var c := ReadText(b);
      if c.Bad? then Bad
      else
        var r := ReadTexts(c.rest, n - 1);
        if r.Bad? then Bad else Got([c.value] + r.value, r.rest)
  }

  datatype Debug = Debug(lineinfo: seq<int>, locvars: seq<LocVar>, upvalues: seq<Option<Text>>)

  function ReadDebug(b: Bytes): Read<Debug> {
    var n :- ReadInt(b);
    var lines :- ReadInts(n.1, n.0);
    var m :- ReadInt(lines.1);
    var vars :- ReadLocVars(m.1, m.0);
    var u :- ReadInt(vars.1);
    var ups :- ReadTexts(u.1, u.0);
    Got(Debug(lines.0, vars.0, ups.0), ups.1)
  }

  datatype Head = Head(source: Option<Text>, linedefined: int, lastlinedefined: int, bytes: Bytes, code: seq<int>,
      k: seq<Const>, np: nat)

  /** The part of a function before its nested functions. */
  function ReadHead(b: Bytes): (r: Read<Head>)
    ensures r.Got? ==> |r.value.bytes| == 4
  {
    var source :- ReadText(b);
    var line :- ReadInt(source.1);
    var last :- ReadInt(line.1);
    var four :- Take(last.1, 4);
    var n :- ReadInt(four.1);
    var code :- ReadInts(n.1, n.0);
    var m :- ReadInt(code.1);
    var k :- ReadConsts(m.1, m.0);
    var np :- ReadInt(k.1);
    Got(Head(source.0, line.0, last.0, four.0, code.0, k.0, np.0), np.1)
  }

  function Assembled(h: Head, parent: Option<Text>, ps: seq<Proto>, d: Debug): Proto
    requires |h.bytes| == 4
  {
    Proto(if h.source.None? then parent else h.source, h.linedefined, h.lastlinedefined,
      h.bytes[0], h.bytes[1], h.bytes[2], h.bytes[3], h.code, h.k, ps, d.lineinfo, d.locvars, d.upvalues)
  }

  /** LoadFunction, with `depth` calls under way; `check` is the code checker. */
  function ReadFunction(b: Bytes, parent: Option<Text>, depth: nat, check: Proto -> bool): Read<Proto>
    requires depth <= MAXCCALLS
    decreases MAXCCALLS - depth, 1, 0
  {
    if depth == MAXCCALLS then Bad
    else
      var h :- ReadHead(b);
      var ps :- ReadProtos(h.1, h.0.np, if h.0.source.None? then parent else h.0.source, depth + 1, check);
      var d :- ReadDebug(ps.1);
      var f := Assembled(h.0, parent, ps.0, d.0);
      if check(f) then Got(f, d.1) else Bad
  }

  function ReadProtos(b: Bytes, n: nat, parent: Option<Text>, depth: nat, check: Proto -> bool): Read<seq<Proto>>
    requires depth <= MAXCCALLS
    decreases MAXCCALLS - depth, 2, n
  {
    if n == 0 then Got([], b)
    else
      var f :- ReadFunction(b, parent, depth, check);
      var r :- ReadProtos(f.1, n - 1, parent, depth, check);
      Got([f.0] + r.0, r.1)
  }

  const HEADER: Bytes := [0x1B, 0x4C, 0x75, 0x61, 0x51, 0, 1, 4, 4, 4, 8, 0]

  const NO_SOURCE: Text := [0x3D, 0x3F]

  /** luaU_undump. */
  function Undump(b: Bytes, calls: nat, check: Proto -> bool): Read<Proto>
    requires calls <= MAXCCALLS
  {
    var h :- Take(b, |HEADER|);
    if h.0 == HEADER then ReadFunction(h.1, Some(NO_SOURCE), calls, check) else Bad
  }

  /** luaU_dump. */
  function Dump(f: Proto, strip: bool): Bytes
    requires Fits(f)
  {
    HEADER + DumpFunction(f, None, strip)
  }
}
