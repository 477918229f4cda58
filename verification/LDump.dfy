/** Writing a precompiled function block by block through a writer that may fail (ldump.c). */
module LDump {
  import opened Common
  import opened Bytecode
  import opened BytecodeLayout

  /** The writer gets the number of bytes written so far and a block; it returns a status. */
  type Writer = (nat, Bytes) -> int

  lemma {:induction false} ConstsMore(ks: seq<Const>, c: Const)
    requires (forall i :: 0 <= i < |ks| ==> ConstFits(ks[i])) && ConstFits(c)
    ensures DumpConsts(ks + [c]) == DumpConsts(ks) + DumpConst(c)
    decreases |ks|
  {
    if ks == [] {
      assert [c][1..] == [];
    } else {
      assert (ks + [c])[1..] == ks[1..] + [c];
      ConstsMore(ks[1..], c);
    }
  }

  lemma {:induction false} ProtosMore(ps: seq<Proto>, f: Proto, parent: Option<Text>, strip: bool)
    requires (forall i :: 0 <= i < |ps| ==> Fits(ps[i])) && Fits(f)
    ensures DumpProtos(ps + [f], parent, strip) == DumpProtos(ps, parent, strip) + DumpFunction(f, parent, strip)
    decreases |ps|
  {
    hide DumpFunction, Fits;
    if ps == [] {
      assert [f][1..] == [];
    } else {
      assert (ps + [f])[1..] == ps[1..] + [f];
      ProtosMore(ps[1..], f, parent, strip);
    }
  }

  lemma {:induction false} LocVarsMore(vs: seq<LocVar>, v: LocVar)
    requires (forall i :: 0 <= i < |vs| ==> LocVarFits(vs[i])) && LocVarFits(v)
    ensures DumpLocVars(vs + [v]) == DumpLocVars(vs) + DumpLocVar(v)
    decreases |vs|
  {
    if vs == [] {
      assert [v][1..] == [];
    } else {
      assert (vs + [v])[1..] == vs[1..] + [v];
      LocVarsMore(vs[1..], v);
    }
  }

  lemma {:induction false} TextsMore(ts: seq<Option<Text>>, t: Option<Text>)
    requires (forall i :: 0 <= i < |ts| ==> TextFits(ts[i])) && TextFits(t)
    ensures DumpTexts(ts + [t]) == DumpTexts(ts) + DumpText(t)
    decreases |ts|
  {
    if ts == [] {
      assert [t][1..] == [];
    } else {
      assert (ts + [t])[1..] == ts[1..] + [t];
      TextsMore(ts[1..], t);
    }
  }

  class DumpState {
    const writer: Writer
    const strip: bool
    var out: Bytes
    var status: int

    constructor (writer: Writer, strip: bool)
      ensures this.writer == writer && this.strip == strip && out == [] && status == 0
    {
      this.writer := writer;
      this.strip := strip;
      out := [];
      status := 0;
    }

    /** What happened since some moment: while the status is zero the bytes b were written; after
        a failure nothing more is written and the status stays. */
    ghost predicate Wrote(out0: Bytes, status0: int, b: Bytes)
      reads this
    {
      && (status == 0 ==> status0 == 0 && out == out0 + b)
      && (status0 != 0 ==> status == status0 && out == out0)
      && (status0 == 0 && (forall n, x :: writer(n, x) == 0) ==> status == 0)
    }

    lemma Then(out0: Bytes, status0: int, a: Bytes, out1: Bytes, status1: int, b: Bytes)
      requires status1 == 0 ==> status0 == 0 && out1 == out0 + a
      requires status0 != 0 ==> status1 == status0 && out1 == out0
      requires status0 == 0 && (forall n, x :: writer(n, x) == 0) ==> status1 == 0
      requires Wrote(out1, status1, b)
      ensures Wrote(out0, status0, a + b)
    {
      assert (out0 + a) + b == out0 + (a + b);
    }

    /** DumpBlock. */
    method DumpBlock(b: Bytes)
      modifies this
      ensures Wrote(old(out), old(status), b)
    {
      if status == 0 {
        status := writer(|out|, b);
        if status == 0 { out := out + b; }
      }
    }

    method PutInt(x: int)
      requires IsInt(x)
      modifies this
      ensures Wrote(old(out), old(status), IntBytes(x))
    {
      DumpBlock(IntBytes(x));
    }

    /** DumpString: NULL is written as size zero, an empty text as size one. */
    method PutText(s: Option<Text>)
      requires TextFits(s)
      modifies this
      ensures Wrote(old(out), old(status), DumpText(s))
    {
      hide Word;
      Powers();
      match s {
        case None => DumpBlock(Word(0, SIZE_BYTES));
        case Some(t) =>
          ghost var o, st := out, status;
          var size := Word(|t| + 1, SIZE_BYTES);
          DumpBlock(size);
          ghost var o1, st1 := out, status;
          DumpBlock(t + [0]);
          Then(o, st, size, o1, st1, t + [0]);
      }
    }

    method PutConst(c: Const)
      requires ConstFits(c)
      modifies this
      ensures Wrote(old(out), old(status), DumpConst(c))
    {
      hide DumpText;
      ghost var o, st := out, status;
      match c {
        case KNil => DumpBlock([LUA_TNIL]);
        case KBool(b) =>
          DumpBlock([LUA_TBOOLEAN]);
          ghost var o1, st1 := out, status;
          DumpBlock([if b then 1 else 0]);
          Then(o, st, [LUA_TBOOLEAN], o1, st1, [if b then 1 else 0]);
          assert [LUA_TBOOLEAN] + [if b then 1 else 0] == DumpConst(c);
        case KNumber(bits) =>
          DumpBlock([LUA_TNUMBER]);
          ghost var o1, st1 := out, status;
          DumpBlock(bits);
          Then(o, st, [LUA_TNUMBER], o1, st1, bits);
        case KString(s) =>
          DumpBlock([LUA_TSTRING]);
          ghost var o1, st1 := out, status;
          PutText(s);
          Then(o, st, [LUA_TSTRING], o1, st1, DumpText(s));
      }
    }

    /** The first loop of DumpConstants. */
    method PutConsts(ks: seq<Const>)
      requires |ks| < TWO31 && forall i :: 0 <= i < |ks| ==> ConstFits(ks[i])
      modifies this
      ensures Wrote(old(out), old(status), IntBytes(|ks|) + DumpConsts(ks))
      ensures IntBytes(|ks|) + DumpConsts(ks) == Counted(Consts(ks))
    {
      hide DumpConst, IntBytes, ConstLayout, IntLayout;
      IntIs(|ks|);
      ConstsAre(ks);
      ghost var o, st := out, status;
      PutInt(|ks|);
      assert IntBytes(|ks|) + DumpConsts(ks[..0]) == IntBytes(|ks|);
      var i := 0;
      while i < |ks|
        invariant 0 <= i <= |ks| && Wrote(o, st, IntBytes(|ks|) + DumpConsts(ks[..i]))
      {
        ghost var o1, st1 := out, status;
        PutConst(ks[i]);
        assert ks[..i + 1] == ks[..i] + [ks[i]];
        ConstsMore(ks[..i], ks[i]);
        Then(o, st, IntBytes(|ks|) + DumpConsts(ks[..i]), o1, st1, DumpConst(ks[i]));
        assert IntBytes(|ks|) + DumpConsts(ks[..i]) + DumpConst(ks[i]) == IntBytes(|ks|) + DumpConsts(ks[..i + 1]);
        i := i + 1;
      }
      assert ks[..i] == ks;
    }

    /** The second loop of DumpConstants: the nested functions, each told the source of this one. */
    method PutProtos(f: Proto)
      requires Fits(f)
      modifies this
      ensures Wrote(old(out), old(status), IntBytes(|f.p|) + DumpProtos(f.p, f.source, strip))
      decreases f, 0
    {
      hide DumpFunction, IntBytes;
      var ps := f.p;
      ghost var o, st, b := out, status, IntBytes(|ps|);
      PutInt(|ps|);
      assert b + DumpProtos(ps[..0], f.source, strip) == b;
      var i := 0;
      while i < |ps|
        invariant 0 <= i <= |ps| && Wrote(o, st, b + DumpProtos(ps[..i], f.source, strip))
      {
        ghost var o1, st1 := out, status;
        PutFunction(ps[i], f.source);
        assert ps[..i + 1] == ps[..i] + [ps[i]];
        ProtosMore(ps[..i], ps[i], f.source, strip);
        Then(o, st, b + DumpProtos(ps[..i], f.source, strip), o1, st1, DumpFunction(ps[i], f.source, strip));
        assert b + DumpProtos(ps[..i], f.source, strip) + DumpFunction(ps[i], f.source, strip) == b
            + DumpProtos(ps[..i + 1], f.source, strip);
        i := i + 1;
      }
      assert ps[..i] == ps;
    }

    method PutLocVars(vs: seq<LocVar>)
      requires |vs| < TWO31 && forall i :: 0 <= i < |vs| ==> LocVarFits(vs[i])
      modifies this
      ensures Wrote(old(out), old(status), IntBytes(|vs|) + DumpLocVars(vs))
    {
      hide IntBytes, DumpText;
      ghost var o, st, b := out, status, IntBytes(|vs|);
      PutInt(|vs|);
      assert b + DumpLocVars(vs[..0]) == b;
      var i := 0;
      while i < |vs|
        invariant 0 <= i <= |vs| && Wrote(o, st, b + DumpLocVars(vs[..i]))
      {
        ghost var o1, st1 := out, status;
        PutLocVar(vs[i]);
        assert vs[..i + 1] == vs[..i] + [vs[i]];
        LocVarsMore(vs[..i], vs[i]);
        Then(o, st, b + DumpLocVars(vs[..i]), o1, st1, DumpLocVar(vs[i]));
        assert b + DumpLocVars(vs[..i]) + DumpLocVar(vs[i]) == b + DumpLocVars(vs[..i + 1]);
        i := i + 1;
      }
      assert vs[..i] == vs;
    }

    method PutLocVar(v: LocVar)
      requires LocVarFits(v)
      modifies this
      ensures Wrote(old(out), old(status), DumpLocVar(v))
    {
      hide IntBytes, DumpText;
      ghost var o, st := out, status;
      PutText(v.varname);
      ghost var o1, st1 := out, status;
      PutInt(v.startpc);
      ghost var o2, st2 := out, status;
      PutInt(v.endpc);
      Then(o1, st1, IntBytes(v.startpc), o2, st2, IntBytes(v.endpc));
      Then(o, st, DumpText(v.varname), o1, st1, IntBytes(v.startpc) + IntBytes(v.endpc));
    }

    method PutTexts(ts: seq<Option<Text>>)
      requires |ts| < TWO31 && forall i :: 0 <= i < |ts| ==> TextFits(ts[i])
      modifies this
      ensures Wrote(old(out), old(status), IntBytes(|ts|) + DumpTexts(ts))
    {
      hide IntBytes, DumpText;
      ghost var o, st, b := out, status, IntBytes(|ts|);
      PutInt(|ts|);
      assert b + DumpTexts(ts[..0]) == b;
      var i := 0;
      while i < |ts|
        invariant 0 <= i <= |ts| && Wrote(o, st, b + DumpTexts(ts[..i]))
      {
        ghost var o1, st1 := out, status;
        PutText(ts[i]);
        assert ts[..i + 1] == ts[..i] + [ts[i]];
        TextsMore(ts[..i], ts[i]);
        Then(o, st, b + DumpTexts(ts[..i]), o1, st1, DumpText(ts[i]));
        assert b + DumpTexts(ts[..i]) + DumpText(ts[i]) == b + DumpTexts(ts[..i + 1]);
        i := i + 1;
      }
      assert ts[..i] == ts;
    }

    /** DumpVector of ints. */
    method PutInts(xs: seq<int>)
      requires |xs| < TWO31 && forall i :: 0 <= i < |xs| ==> IsInt(xs[i])
      modifies this
      ensures Wrote(old(out), old(status), IntBytes(|xs|) + DumpInts(xs))
    {
      hide IntBytes;
      ghost var o, st := out, status;
      PutInt(|xs|);
      ghost var o1, st1 := out, status;
      DumpBlock(DumpInts(xs));
      Then(o, st, IntBytes(|xs|), o1, st1, DumpInts(xs));
    }

    /** DumpDebug. */
    method PutDebug(f: Proto)
      requires Fits(f)
      modifies this
      ensures Wrote(old(out), old(status), DumpDebug(f, strip))
    {
      hide IntBytes, DumpInts, DumpLocVars, DumpTexts, Fits;
      FitsParts(f);
      ghost var o, st := out, status;
      PutInts(if strip then [] else f.lineinfo);
      ghost var o1, st1 := out, status;
      PutLocVars(if strip then [] else f.locvars);
      ghost var o2, st2 := out, status;
      PutTexts(if strip then [] else f.upvalues);
      ghost var a, b, c := IntBytes(if strip then 0 else |f.lineinfo|) + DumpInts(if strip then [] else f.lineinfo),
        IntBytes(if strip then 0 else |f.locvars|) + DumpLocVars(if strip then [] else f.locvars),
        IntBytes(if strip then 0 else |f.upvalues|) + DumpTexts(if strip then [] else f.upvalues);
      Then(o1, st1, b, o2, st2, c);
      Then(o, st, a, o1, st1, b + c);
      DebugJoin(f, strip, a, b, c);
    }

    /** DumpFunction. */
    method PutFunction(f: Proto, parent: Option<Text>)
      requires Fits(f)
      modifies this
      ensures Wrote(old(out), old(status), DumpFunction(f, parent, strip))
      decreases f, 1
    {
      hide IntBytes, DumpText, DumpInts, DumpConsts, DumpProtos, DumpDebug, Fits;
      FitsParts(f);
      ghost var o, st := out, status;
      PutText(SourceOf(f, parent, strip));
      ghost var o1, st1 := out, status;
      PutInt(f.linedefined);
      ghost var o2, st2 := out, status;
      PutInt(f.lastlinedefined);
      ghost var o3, st3 := out, status;
      DumpBlock([f.nups, f.numparams, f.isVararg, f.maxstacksize]);
      ghost var o4, st4 := out, status;
      PutInts(f.code);
      ghost var o5, st5 := out, status;
      PutConsts(f.k);
      ghost var o6, st6 := out, status;
      PutProtos(f);
      ghost var o7, st7 := out, status;
      PutDebug(f);
      ghost var s, l, m, q :=
          DumpText(SourceOf(f, parent, strip)), IntBytes(f.linedefined), IntBytes(f.lastlinedefined),
          [f.nups, f.numparams, f.isVararg, f.maxstacksize];
      ghost var c, k, ps, d :=
          IntBytes(|f.code|) + DumpInts(f.code), IntBytes(|f.k|) + DumpConsts(f.k),
          IntBytes(|f.p|) + DumpProtos(f.p, f.source, strip), DumpDebug(f, strip);
      Then(o6, st6, ps, o7, st7, d);
      Then(o5, st5, k, o6, st6, ps + d);
      Then(o4, st4, c, o5, st5, k + (ps + d));
      Then(o3, st3, q, o4, st4, c + (k + (ps + d)));
      Then(o2, st2, m, o3, st3, q + (c + (k + (ps + d))));
      Then(o1, st1, l, o2, st2, m + (q + (c + (k + (ps + d)))));
      Then(o, st, s, o1, st1, l + (m + (q + (c + (k + (ps + d))))));
      FunctionJoin(f, parent, strip, s, l, m, q, c, k, ps, d);
    }

    /** luaU_dump. */
    method DumpAll(f: Proto) returns (st: int)
      requires Fits(f) && out == [] && status == 0
      modifies this
      ensures st == 0 ==> out == ChunkLayout(f, strip)
      ensures (forall n, x :: writer(n, x) == 0) ==> st == 0
    {
      hide DumpFunction, Fits, FunctionLayout;
      DumpBlock(HEADER);
      ghost var o1, st1 := out, status;
      PutFunction(f, None);
      Then([], 0, HEADER, o1, st1, DumpFunction(f, None, strip));
      assert [] + (HEADER + DumpFunction(f, None, strip)) == Dump(f, strip);
      DumpIs(f, strip);
      st := status;
    }
  }

  lemma FitsParts(f: Proto)
    requires Fits(f)
    ensures TextFits(f.source) && IsInt(f.linedefined) && IsInt(f.lastlinedefined)
    ensures |f.code| < TWO31 && |f.k| < TWO31 && |f.p| < TWO31 && |f.lineinfo| < TWO31 && |f.locvars| < TWO31 &&
        |f.upvalues| < TWO31
    ensures (forall i :: 0 <= i < |f.code| ==> IsInt(f.code[i]))
        && (forall i :: 0 <= i < |f.lineinfo| ==> IsInt(f.lineinfo[i]))
    ensures (forall i :: 0 <= i < |f.k| ==> ConstFits(f.k[i]))
        && (forall i :: 0 <= i < |f.locvars| ==> LocVarFits(f.locvars[i]))
    ensures (forall i :: 0 <= i < |f.upvalues| ==> TextFits(f.upvalues[i])) && forall i :: 0 <= i < |f.p| ==>
        Fits(f.p[i])
  {
  }

  lemma Associate(a: Bytes, b: Bytes, c: Bytes)
    ensures (a + b) + c == a + (b + c)
  {
  }

  lemma Pairs(a: Bytes, b: Bytes, c: Bytes, d: Bytes, e: Bytes, f: Bytes)
    ensures (a + b) + ((c + d) + (e + f)) == a + (b + (c + (d + (e + f))))
  {
    Associate(a, b, (c + d) + (e + f));
    Associate(c, d, e + f);
  }

  lemma DebugJoin(f: Proto, strip: bool, a: Bytes, b: Bytes, c: Bytes)
    requires Fits(f)
    requires a == IntBytes(if strip then 0 else |f.lineinfo|) + DumpInts(if strip then [] else f.lineinfo)
    requires b == IntBytes(if strip then 0 else |f.locvars|) + DumpLocVars(if strip then [] else f.locvars)
    requires c == IntBytes(if strip then 0 else |f.upvalues|) + DumpTexts(if strip then [] else f.upvalues)
    ensures a + (b + c) == DumpDebug(f, strip)
  {
    if strip {
      assert IntBytes(0) + [] == IntBytes(0);
    } else {
      var n, l, m, v, u, t :=
          IntBytes(|f.lineinfo|), DumpInts(f.lineinfo), IntBytes(|f.locvars|), DumpLocVars(f.locvars),
          IntBytes(|f.upvalues|), DumpTexts(f.upvalues);
      hide IntBytes, DumpInts, DumpLocVars, DumpTexts;
      Pairs(n, l, m, v, u, t);
    }
  }

  lemma FunctionJoin(f: Proto, parent: Option<Text>, strip: bool, s: Bytes, l: Bytes, m: Bytes, q: Bytes, c: Bytes,
      k: Bytes, ps: Bytes, d: Bytes)
    requires Fits(f)
    requires s == DumpText(SourceOf(f, parent, strip)) && l == IntBytes(f.linedefined)
        && m == IntBytes(f.lastlinedefined)
    requires q == [f.nups, f.numparams, f.isVararg, f.maxstacksize] && c == IntBytes(|f.code|) + DumpInts(f.code)
        && k == IntBytes(|f.k|) + DumpConsts(f.k)
    requires ps == IntBytes(|f.p|) + DumpProtos(f.p, f.source, strip) && d == DumpDebug(f, strip)
    ensures s + (l + (m + (q + (c + (k + (ps + d)))))) == DumpFunction(f, parent, strip)
  {
    var c1, c2, k1, k2, p1, p2 :=
        IntBytes(|f.code|), DumpInts(f.code), IntBytes(|f.k|), DumpConsts(f.k), IntBytes(|f.p|),
        DumpProtos(f.p, f.source, strip);
    hide IntBytes, DumpText, DumpInts, DumpConsts, DumpProtos, DumpDebug, Fits;
    Pairs(c1, c2, k1, k2, p1 + p2, d);
    Associate(p1, p2, d);
  }
}
