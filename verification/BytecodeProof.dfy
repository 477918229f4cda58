/** Loading what was dumped gives the function back; where it does not, the lemmas say what it
    gives instead. */
module BytecodeProof {
  import opened Common
  import opened Bytecode

  lemma Front(a: Bytes, b: Bytes)
    ensures (a + b)[..|a|] == a && (a + b)[|a|..] == b
  {
  }

  lemma Assoc(a: Bytes, b: Bytes, c: Bytes)
    ensures a + b + c == a + (b + c)
  {
  }

  lemma IntRead(x: int, rest: Bytes)
    requires IsInt(x)
    ensures ReadInt(IntBytes(x) + rest) == if x < 0 then Bad else Got(x, rest)
  {
    IntBack(x);
    Front(IntBytes(x), rest);
  }

  lemma TextRead(s: Option<Text>, rest: Bytes)
    requires TextFits(s)
    ensures ReadText(DumpText(s) + rest) == Got(s, rest)
  {
    Powers();
    match s {
      case None =>
        WordBack(0, SIZE_BYTES);
        Front(Word(0, SIZE_BYTES), rest);
      case Some(t) =>
        var n, body := Word(|t| + 1, SIZE_BYTES), t + [0];
        WordBack(|t| + 1, SIZE_BYTES);
        Assoc(n, body, rest);
        Front(n, body + rest);
        Front(body, rest);
        assert body[..|t|] == t;
    }
  }

  lemma {:induction false} IntsBack(xs: seq<int>)
    requires forall i :: 0 <= i < |xs| ==> IsInt(xs[i])
    ensures IntsOf(DumpInts(xs), |xs|) == xs
    decreases |xs|
  {
    if xs != [] {
      assert IsInt(xs[0]);
      IntBack(xs[0]);
      Front(IntBytes(xs[0]), DumpInts(xs[1..]));
      IntsBack(xs[1..]);
      assert xs == [xs[0]] + xs[1..];
    }
  }

  lemma IntsRead(xs: seq<int>, rest: Bytes)
    requires forall i :: 0 <= i < |xs| ==> IsInt(xs[i])
    ensures ReadInts(DumpInts(xs) + rest, |xs|) == Got(xs, rest)
  {
    Front(DumpInts(xs), rest);
    IntsBack(xs);
  }

  lemma Tag(tag: Byte, body: Bytes, rest: Bytes)
    ensures var b := [tag] + body + rest; b != [] && b[0] == tag && b[1..] == body + rest
  {
    assert [tag] + body + rest == [tag] + (body + rest);
  }

  lemma ConstRead(c: Const, rest: Bytes)
    requires ConstFits(c)
    ensures ReadConst(DumpConst(c) + rest) == Got(c, rest)
  {
    hide DumpText, ReadText;
    match c {
      case KNil => Front([LUA_TNIL], rest);
      case KBool(x) =>
        var y: Byte := if x then 1 else 0;
        Front([LUA_TBOOLEAN, y], rest);
      case KNumber(bits) =>
        Tag(LUA_TNUMBER, bits, rest);
        Front(bits, rest);
      case KString(s) =>
        Tag(LUA_TSTRING, DumpText(s), rest);
        TextRead(s, rest);
    }
  }

  lemma {:induction false} ConstsRead(ks: seq<Const>, rest: Bytes)
    requires forall i :: 0 <= i < |ks| ==> ConstFits(ks[i])
    ensures ReadConsts(DumpConsts(ks) + rest, |ks|) == Got(ks, rest)
    decreases |ks|
  {
    hide DumpConst, ReadConst, ConstFits;
    if ks == [] {
      assert [] + rest == rest;
    } else {
      Assoc(DumpConst(ks[0]), DumpConsts(ks[1..]), rest);
      ConstRead(ks[0], DumpConsts(ks[1..]) + rest);
      ConstsRead(ks[1..], rest);
      assert ks == [ks[0]] + ks[1..];
    }
  }

  predicate LocVarGood(v: LocVar) {
    v.startpc >= 0 && v.endpc >= 0
  }

  lemma LocVarRead(v: LocVar, rest: Bytes)
    requires LocVarFits(v)
    ensures ReadLocVar(DumpLocVar(v) + rest) == if LocVarGood(v) then Got(v, rest) else Bad
  {
    var a, b, c := DumpText(v.varname), IntBytes(v.startpc), IntBytes(v.endpc);
    Assoc(a, b + c, rest);
    Assoc(b, c, rest);
    TextRead(v.varname, b + c + rest);
    IntRead(v.startpc, c + rest);
    IntRead(v.endpc, rest);
  }

  lemma {:induction false} LocVarsRead(vs: seq<LocVar>, rest: Bytes)
    requires forall i :: 0 <= i < |vs| ==> LocVarFits(vs[i])
    ensures ReadLocVars(DumpLocVars(vs) + rest, |vs|) ==
            if forall i :: 0 <= i < |vs| ==> LocVarGood(vs[i]) then Got(vs, rest) else Bad
    decreases |vs|
  {
    hide DumpLocVar, ReadLocVar, LocVarFits, LocVarGood;
    if vs == [] {
      assert [] + rest == rest;
    } else {
      Assoc(DumpLocVar(vs[0]), DumpLocVars(vs[1..]), rest);
      LocVarRead(vs[0], DumpLocVars(vs[1..]) + rest);
      LocVarsRead(vs[1..], rest);
      assert vs == [vs[0]] + vs[1..];
    }
  }

  lemma {:induction false} TextsRead(ts: seq<Option<Text>>, rest: Bytes)
    requires forall i :: 0 <= i < |ts| ==> TextFits(ts[i])
    ensures ReadTexts(DumpTexts(ts) + rest, |ts|) == Got(ts, rest)
    decreases |ts|
  {
    hide DumpText, ReadText, TextFits;
    if ts == [] {
      assert [] + rest == rest;
    } else {
      Assoc(DumpText(ts[0]), DumpTexts(ts[1..]), rest);
      TextRead(ts[0], DumpTexts(ts[1..]) + rest);
      TextsRead(ts[1..], rest);
      assert ts == [ts[0]] + ts[1..];
    }
  }

  // ----- functions -----

  /** The debug information that a dump keeps. */
  function Kept(f: Proto, strip: bool): Debug {
    if strip then Debug([], [], []) else Debug(f.lineinfo, f.locvars, f.upvalues)
  }

  /** What loading makes of a function: a source that was not written is the enclosing one's. */
  function Reloaded(f: Proto, parent: Option<Text>, loaded: Option<Text>, strip: bool): Proto
    decreases f, 1
  {
    var source := if SourceOf(f, parent, strip).None? then loaded else f.source;
    Proto(source, f.linedefined, f.lastlinedefined, f.nups, f.numparams, f.isVararg, f.maxstacksize, f.code, f.k,
      ReloadedAll(f.p, f.source, source, strip), Kept(f, strip).lineinfo, Kept(f, strip).locvars,
          Kept(f, strip).upvalues)
  }

  function ReloadedAll(ps: seq<Proto>, parent: Option<Text>, loaded: Option<Text>, strip: bool): (r: seq<Proto>)
    ensures |r| == |ps|
    decreases ps, 0
  {
    if ps == [] then [] else [Reloaded(ps[0], parent, loaded, strip)] + ReloadedAll(ps[1..], parent, loaded, strip)
  }

  /** What LoadFunction accepts: no negative numbers, not nested too deep, and code that the
      checker accepts. */
  predicate Loadable(f: Proto, depth: nat, check: Proto -> bool)
    decreases f, 1
  {
    && depth < 200 && f.linedefined >= 0 && f.lastlinedefined >= 0
    && (forall i :: 0 <= i < |f.locvars| ==> LocVarGood(f.locvars[i]))
    && LoadableAll(f.p, depth + 1, check) && check(f)
  }

  predicate LoadableAll(ps: seq<Proto>, depth: nat, check: Proto -> bool)
    decreases ps, 0
  {
    ps == [] || (Loadable(ps[0], depth, check) && LoadableAll(ps[1..], depth, check))
  }

  lemma DebugRead(f: Proto, strip: bool, rest: Bytes)
    requires Fits(f)
    ensures ReadDebug(DumpDebug(f, strip) + rest) ==
            if forall i :: 0 <= i < |Kept(f, strip).locvars| ==> LocVarGood(Kept(f, strip).locvars[i])
            then Got(Kept(f, strip), rest) else Bad
  {
    if strip {
      var z := IntBytes(0);
      Assoc(z, z + z, rest);
      Assoc(z, z, rest);
      IntRead(0, z + z + rest);
      IntRead(0, z + rest);
      IntRead(0, rest);
      assert Take(z + z + rest, 0) == Got([], z + z + rest) by { assert (z + z + rest)[0..] == z + z + rest; }
      assert ReadInts(z + z + rest, 0) == Got([], z + z + rest);
    } else {
      DebugKept(f, rest);
    }
  }

  lemma DebugKept(f: Proto, rest: Bytes)
    requires Fits(f)
    ensures ReadDebug(DumpDebug(f, false) + rest) ==
            if forall i :: 0 <= i < |f.locvars| ==> LocVarGood(f.locvars[i])
            then Got(Debug(f.lineinfo, f.locvars, f.upvalues), rest) else Bad
  {
    hide IntBytes, DumpInts, DumpLocVars, DumpTexts, ReadInt, ReadInts, ReadLocVars, ReadTexts, LocVarGood;
    var a, b, c, d, e, g :=
        IntBytes(|f.lineinfo|), DumpInts(f.lineinfo), IntBytes(|f.locvars|), DumpLocVars(f.locvars),
        IntBytes(|f.upvalues|), DumpTexts(f.upvalues);
    var t5 := g + rest;
    var t4 := e + t5;
    var t3 := d + t4;
    var t2 := c + t3;
    var t1 := b + t2;
    Assoc(e, g, rest);
    Assoc(d, e + g, rest);
    Assoc(c, d + (e + g), rest);
    Assoc(b, c + (d + (e + g)), rest);
    Assoc(a, b + (c + (d + (e + g))), rest);
    IntRead(|f.lineinfo|, t1);
    IntsRead(f.lineinfo, t2);
    IntRead(|f.locvars|, t3);
    LocVarsRead(f.locvars, t4);
    IntRead(|f.upvalues|, t5);
    TextsRead(f.upvalues, rest);
  }

  function HeadOf(f: Proto, parent: Option<Text>, strip: bool): Head {
    Head(SourceOf(f, parent, strip), f.linedefined, f.lastlinedefined,
        [f.nups, f.numparams, f.isVararg, f.maxstacksize], f.code, f.k, |f.p|)
  }

  lemma HeadRead(f: Proto, parent: Option<Text>, strip: bool, rest: Bytes)
    requires Fits(f)
    ensures DumpFunction(f, parent, strip) + rest == HeadBytes(f, parent, strip)
        + (DumpProtos(f.p, f.source, strip) + (DumpDebug(f, strip) + rest))
    ensures ReadHead(DumpFunction(f, parent, strip) + rest) ==
            if f.linedefined >= 0 && f.lastlinedefined >= 0
            then Got(HeadOf(f, parent, strip), DumpProtos(f.p, f.source, strip) + (DumpDebug(f, strip) + rest)) else Bad
  {
    hide IntBytes, DumpInts, DumpText, DumpConsts, DumpProtos, DumpDebug, ReadInt, ReadInts, ReadText, ReadConsts;
    var s, l, m, q :=
        DumpText(SourceOf(f, parent, strip)), IntBytes(f.linedefined), IntBytes(f.lastlinedefined),
        [f.nups, f.numparams, f.isVararg, f.maxstacksize];
    var n, c, k, ks, np := IntBytes(|f.code|), DumpInts(f.code), IntBytes(|f.k|), DumpConsts(f.k), IntBytes(|f.p|);
    var ps, dbg := DumpProtos(f.p, f.source, strip), DumpDebug(f, strip);
    var t8 := ps + (dbg + rest);
    var t7 := np + t8;
    var t6 := ks + t7;
    var t5 := k + t6;
    var t4 := c + t5;
    var t3 := n + t4;
    var t2 := q + t3;
    var t1 := m + t2;
    var t0 := l + t1;
    HeadJoin(s, l, m, q, n, c, k, ks, np, ps, dbg, rest);
    TextRead(SourceOf(f, parent, strip), t0);
    IntRead(f.linedefined, t1);
    IntRead(f.lastlinedefined, t2);
    Front(q, t3);
    IntRead(|f.code|, t4);
    IntsRead(f.code, t5);
    IntRead(|f.k|, t6);
    ConstsRead(f.k, t7);
    IntRead(|f.p|, t8);
  }

  function HeadBytes(f: Proto, parent: Option<Text>, strip: bool): Bytes
    requires Fits(f)
  {
    DumpText(SourceOf(f, parent, strip)) + IntBytes(f.linedefined) + IntBytes(f.lastlinedefined)
        + [f.nups, f.numparams, f.isVararg, f.maxstacksize]
    + IntBytes(|f.code|) + DumpInts(f.code) + IntBytes(|f.k|) + DumpConsts(f.k) + IntBytes(|f.p|)
  }

  lemma HeadJoin(s: Bytes, l: Bytes, m: Bytes, q: Bytes, n: Bytes, c: Bytes, k: Bytes, ks: Bytes, np: Bytes, ps: Bytes,
      dbg: Bytes, rest: Bytes)
    ensures s + (l + (m + (q + (n + (c + (k + (ks + (np + (ps + dbg))))))))) + rest
         == s + (l + (m + (q + (n + (c + (k + (ks + (np + (ps + (dbg + rest))))))))))
    ensures s + (l + (m + (q + (n + (c + (k + (ks + (np + (ps + dbg))))))))) + rest
         == s + l + m + q + n + c + k + ks + np + (ps + (dbg + rest))
  {
  }

  lemma {:induction false} ReloadedAt(ps: seq<Proto>, parent: Option<Text>, loaded: Option<Text>, strip: bool, i: nat)
    requires i < |ps|
    ensures ReloadedAll(ps, parent, loaded, strip)[i] == Reloaded(ps[i], parent, loaded, strip)
    decreases |ps|
  {
    if i > 0 { ReloadedAt(ps[1..], parent, loaded, strip, i - 1); }
  }

  /** LoadFunction, when it is known what its parts read. */
  lemma FunctionStep(b: Bytes, parent: Option<Text>, depth: nat, check: Proto -> bool, h: Read<Head>,
      ps: Read<seq<Proto>>, d: Read<Debug>)
    requires depth < MAXCCALLS && ReadHead(b) == h
    requires h.Got? ==>
        ReadProtos(h.rest, h.value.np, if h.value.source.None? then parent else h.value.source, depth + 1, check) == ps
    requires h.Got? && ps.Got? ==> ReadDebug(ps.rest) == d
    ensures h.Got? ==> |h.value.bytes| == 4
    ensures ReadFunction(b, parent, depth, check) ==
            if h.Bad? || ps.Bad? || d.Bad? then Bad
            else if check(Assembled(h.value, parent, ps.value, d.value))
                then Got(Assembled(h.value, parent, ps.value, d.value), d.rest) else Bad
  {
    hide ReadHead, ReadProtos, ReadDebug;
  }

  /** Loading a dumped function gives the reloaded one, or an error just when that is not
      acceptable. */
  lemma {:induction false} FunctionRead(f: Proto, parent: Option<Text>, loaded: Option<Text>, strip: bool, rest: Bytes,
      depth: nat, check: Proto -> bool)
    requires Fits(f) && depth <= MAXCCALLS
    ensures var g := Reloaded(f, parent, loaded, strip);
            ReadFunction(DumpFunction(f, parent, strip) + rest, loaded, depth, check) == if Loadable(g, depth, check)
                then Got(g, rest) else Bad
    decreases f, 1
  {
    hide ReadHead, ReadProtos, ReadDebug, ReadFunction, DumpFunction, DumpDebug, DumpProtos, Reloaded, ReloadedAll,
        Loadable, LoadableAll, LocVarGood, HeadBytes, Kept, Assembled, HeadOf;
    if depth == MAXCCALLS {
      TooDeep(DumpFunction(f, parent, strip) + rest, loaded, check, Reloaded(f, parent, loaded, strip));
    } else {
      var b, t := DumpFunction(f, parent, strip) + rest, DumpDebug(f, strip) + rest;
      var source := if SourceOf(f, parent, strip).None? then loaded else f.source;
      HeadRead(f, parent, strip, rest);
      ProtosRead(f.p, f.source, source, strip, t, depth + 1, check);
      DebugRead(f, strip, rest);
      FunctionJoin(f, parent, loaded, strip, rest, depth, check, source, b, DumpProtos(f.p, f.source, strip) + t, t);
    }
  }

  lemma TooDeep(b: Bytes, parent: Option<Text>, check: Proto -> bool, g: Proto)
    ensures ReadFunction(b, parent, MAXCCALLS, check) == Bad && !Loadable(g, MAXCCALLS, check)
  {
  }

  lemma FunctionJoin(f: Proto, parent: Option<Text>, loaded: Option<Text>, strip: bool, rest: Bytes, depth: nat,
      check: Proto -> bool, source: Option<Text>, b: Bytes, t0: Bytes, t1: Bytes)
    requires depth < MAXCCALLS && source == if SourceOf(f, parent, strip).None? then loaded else f.source
    requires ReadHead(b) == if f.linedefined >= 0 && f.lastlinedefined >= 0 then Got(HeadOf(f, parent, strip), t0)
        else Bad
    requires ReadProtos(t0, |f.p|, source, depth + 1, check) ==
             if LoadableAll(ReloadedAll(f.p, f.source, source, strip), depth + 1, check)
                 then Got(ReloadedAll(f.p, f.source, source, strip), t1) else Bad
    requires ReadDebug(t1) ==
             if forall i :: 0 <= i < |Kept(f, strip).locvars| ==> LocVarGood(Kept(f, strip).locvars[i])
             then Got(Kept(f, strip), rest) else Bad
    ensures var g := Reloaded(f, parent, loaded, strip);
            ReadFunction(b, loaded, depth, check) == if Loadable(g, depth, check) then Got(g, rest) else Bad
  {
    var head, gs, d := HeadOf(f, parent, strip), ReloadedAll(f.p, f.source, source, strip), Kept(f, strip);
    ReloadedIs(f, parent, loaded, strip, source);
    hide ReadHead, ReadProtos, ReadDebug, ReadFunction, Reloaded, ReloadedAll, Loadable, LoadableAll, LocVarGood, Kept;
    FunctionStep(b, loaded, depth, check, ReadHead(b), ReadProtos(t0, |f.p|, source, depth + 1, check), ReadDebug(t1));
    LoadableIs(Assembled(head, loaded, gs, d), depth, check);
  }

  lemma ReloadedIs(f: Proto, parent: Option<Text>, loaded: Option<Text>, strip: bool, source: Option<Text>)
    requires source == if SourceOf(f, parent, strip).None? then loaded else f.source
    ensures Reloaded(f, parent, loaded, strip) ==
        Assembled(HeadOf(f, parent, strip), loaded, ReloadedAll(f.p, f.source, source, strip), Kept(f, strip))
  {
  }

  lemma LoadableIs(g: Proto, depth: nat, check: Proto -> bool)
    requires depth < MAXCCALLS
    ensures Loadable(g, depth, check) ==
        (g.linedefined >= 0 && g.lastlinedefined >= 0 && (forall i :: 0 <= i < |g.locvars| ==> LocVarGood(g.locvars[i]))
                                          && LoadableAll(g.p, depth + 1, check) && check(g))
  {
  }

  lemma {:induction false} ProtosRead(ps: seq<Proto>, parent: Option<Text>, loaded: Option<Text>, strip: bool,
      rest: Bytes, depth: nat, check: Proto -> bool)
    requires (forall i :: 0 <= i < |ps| ==> Fits(ps[i])) && depth <= MAXCCALLS
    ensures var gs := ReloadedAll(ps, parent, loaded, strip);
            ReadProtos(DumpProtos(ps, parent, strip) + rest, |ps|, loaded, depth, check) ==
                if LoadableAll(gs, depth, check) then Got(gs, rest) else Bad
    decreases ps, 0
  {
    hide DumpFunction, Reloaded, Loadable, ReadFunction, Fits;
    if ps == [] {
      assert [] + rest == rest;
    } else {
      var t := DumpProtos(ps[1..], parent, strip) + rest;
      Assoc(DumpFunction(ps[0], parent, strip), DumpProtos(ps[1..], parent, strip), rest);
      FunctionRead(ps[0], parent, loaded, strip, t, depth, check);
      ProtosRead(ps[1..], parent, loaded, strip, rest, depth, check);
      ReloadedTail(ps, parent, loaded, strip);
    }
  }

  lemma ReloadedTail(ps: seq<Proto>, parent: Option<Text>, loaded: Option<Text>, strip: bool)
    requires ps != []
    ensures var gs := ReloadedAll(ps, parent, loaded, strip);
            |gs| == |ps| && gs[0] == Reloaded(ps[0], parent, loaded, strip)
                && gs[1..] == ReloadedAll(ps[1..], parent, loaded, strip)
  {
  }

  // ----- when the function comes back -----

  /** Every function of the tree has a source. */
  predicate AllSources(f: Proto)
    decreases f
  {
    f.source.Some? && forall i :: 0 <= i < |f.p| ==> AllSources(f.p[i])
  }

  /** Loading gives every function a source; it gives the same tree back just when every
      function had one. */
  lemma {:induction false} SameTree(f: Proto, parent: Option<Text>, loaded: Option<Text>)
    requires loaded.Some? && (parent.Some? ==> loaded == parent)
    ensures Reloaded(f, parent, loaded, false) == f <==> AllSources(f)
    decreases f
  {
    var g := Reloaded(f, parent, loaded, false);
    assert g.source.Some?;
    if f.source.Some? {
      assert g.source == f.source;
      forall i | 0 <= i < |f.p| ensures g.p[i] == f.p[i] <==> AllSources(f.p[i]) {
        ReloadedAt(f.p, f.source, g.source, false, i);
        SameTree(f.p[i], f.source, g.source);
      }
      if forall i :: 0 <= i < |f.p| ==> AllSources(f.p[i]) { assert g.p == f.p; }
    }
  }

  /** Undump inverts dump, for every function with sources and numbers as the compiler makes
      them, that nests within the limit and that the code checker accepts; for any other the
      result is not the function that was dumped. */
  lemma RoundTrip(f: Proto, calls: nat, check: Proto -> bool)
    requires Fits(f) && calls <= MAXCCALLS
    ensures Undump(Dump(f, false), calls, check) == Got(f, []) <==> AllSources(f) && Loadable(f, calls, check)
  {
    hide DumpFunction, ReadFunction, Loadable, Fits, Reloaded;
    var b := DumpFunction(f, None, false);
    Front(HEADER, b);
    assert b + [] == b;
    FunctionRead(f, None, Some(NO_SOURCE), false, [], calls, check);
    SameTree(f, None, Some(NO_SOURCE));
  }

  /** A stripped dump keeps the code and loses sources and debug information. */
  lemma Stripped(f: Proto, calls: nat, check: Proto -> bool)
    requires Fits(f) && calls <= MAXCCALLS
    ensures var g := Reloaded(f, None, Some(NO_SOURCE), true);
            Undump(Dump(f, true), calls, check) == if Loadable(g, calls, check) then Got(g, []) else Bad
  {
    hide DumpFunction, ReadFunction, Loadable, Fits, Reloaded;
    var b := DumpFunction(f, None, true);
    Front(HEADER, b);
    assert b + [] == b;
    FunctionRead(f, None, Some(NO_SOURCE), true, [], calls, check);
  }
}
