/** Whatever loads can be dumped, and the dump loads as the same function again. */
module LoadedChunks {
  import opened Common
  import opened Bytecode
  import opened BytecodeProof

  lemma IntLoads(b: Bytes)
    ensures ReadInt(b).Got? ==> 0 <= ReadInt(b).value < TWO31
  {
  }

  lemma TextLoads(b: Bytes)
    ensures ReadText(b).Got? ==> TextFits(ReadText(b).value)
  {
    Powers();
  }

  lemma {:induction false} IntsLoad(b: Bytes, n: nat)
    requires |b| == INT_BYTES * n
    ensures |IntsOf(b, n)| == n && forall i :: 0 <= i < n ==> IsInt(IntsOf(b, n)[i])
    decreases n
  {
    if n > 0 {
      IntsLoad(b[4..], n - 1);
      assert IsInt(IntOf(b[..4]));
    }
  }

  lemma ConstLoads(b: Bytes)
    ensures ReadConst(b).Got? ==> ConstFits(ReadConst(b).value)
  {
    hide ReadText, TextFits;
    if b != [] { TextLoads(b[1..]); }
  }

  lemma {:induction false} ConstsLoad(b: Bytes, n: nat)
    ensures var r := ReadConsts(b, n);
            r.Got? ==> |r.value| == n && forall i :: 0 <= i < n ==> ConstFits(r.value[i])
    decreases n
  {
    hide ReadConst, ConstFits;
    if n > 0 && ReadConst(b).Got? {
      ConstLoads(b);
      ConstsLoad(ReadConst(b).rest, n - 1);
    }
  }

  ghost predicate LocVarLoaded(v: LocVar) {
    LocVarFits(v) && LocVarGood(v)
  }

  lemma LocVarLoads(b: Bytes)
    ensures ReadLocVar(b).Got? ==> LocVarLoaded(ReadLocVar(b).value)
  {
    hide ReadText, ReadInt, TextFits;
    TextLoads(b);
    if ReadText(b).Got? {
      var t := ReadText(b).rest;
      IntLoads(t);
      if ReadInt(t).Got? { IntLoads(ReadInt(t).rest); }
    }
  }

  lemma {:induction false} LocVarsLoad(b: Bytes, n: nat)
    ensures var r := ReadLocVars(b, n);
            r.Got? ==> |r.value| == n && forall i :: 0 <= i < n ==> LocVarLoaded(r.value[i])
    decreases n
  {
    hide ReadLocVar, LocVarLoaded;
    if n > 0 && ReadLocVar(b).Got? {
      LocVarLoads(b);
      LocVarsLoad(ReadLocVar(b).rest, n - 1);
    }
  }

  lemma {:induction false} TextsLoad(b: Bytes, n: nat)
    ensures var r := ReadTexts(b, n);
            r.Got? ==> |r.value| == n && forall i :: 0 <= i < n ==> TextFits(r.value[i])
    decreases n
  {
    hide ReadText, TextFits;
    if n > 0 && ReadText(b).Got? {
      TextLoads(b);
      TextsLoad(ReadText(b).rest, n - 1);
    }
  }

  /** The parts of a function that have the range of their C types. */
  ghost predicate HeadFits(h: Head) {
    && TextFits(h.source) && 0 <= h.linedefined < TWO31 && 0 <= h.lastlinedefined < TWO31 && |h.bytes| == 4
    && |h.code| < TWO31 && |h.k| < TWO31 && h.np < TWO31
    && (forall i :: 0 <= i < |h.code| ==> IsInt(h.code[i])) && (forall i :: 0 <= i < |h.k| ==> ConstFits(h.k[i]))
  }

  ghost predicate DebugFits(d: Debug) {
    && |d.lineinfo| < TWO31 && |d.locvars| < TWO31 && |d.upvalues| < TWO31
    && (forall i :: 0 <= i < |d.lineinfo| ==> IsInt(d.lineinfo[i]))
    && (forall i :: 0 <= i < |d.locvars| ==> LocVarLoaded(d.locvars[i]))
    && (forall i :: 0 <= i < |d.upvalues| ==> TextFits(d.upvalues[i]))
  }

  lemma IntVectorLoads(b: Bytes, n: nat)
    ensures var r := ReadInts(b, n);
            r.Got? ==> |r.value| == n && forall i :: 0 <= i < n ==> IsInt(r.value[i])
  {
    var t := Take(b, INT_BYTES * n);
    if t.Got? { IntsLoad(t.value, n); }
  }

  lemma DebugLoads(b: Bytes)
    ensures ReadDebug(b).Got? ==> DebugFits(ReadDebug(b).value)
  {
    hide ReadInt, ReadInts, ReadLocVars, ReadTexts, LocVarLoaded, TextFits;
    if ReadDebug(b).Got? {
      var n := ReadInt(b);
      IntLoads(b);
      IntVectorLoads(n.rest, n.value);
      var m := ReadInt(ReadInts(n.rest, n.value).rest);
      IntLoads(ReadInts(n.rest, n.value).rest);
      LocVarsLoad(m.rest, m.value);
      var u := ReadInt(ReadLocVars(m.rest, m.value).rest);
      IntLoads(ReadLocVars(m.rest, m.value).rest);
      TextsLoad(u.rest, u.value);
    }
  }

  lemma HeadLoads(b: Bytes)
    ensures ReadHead(b).Got? ==> HeadFits(ReadHead(b).value)
  {
    hide ReadInt, ReadInts, ReadText, ReadConsts, ConstFits, TextFits;
    if ReadHead(b).Got? {
      var s := ReadText(b);
      TextLoads(b);
      var l := ReadInt(s.rest);
      IntLoads(s.rest);
      var m := ReadInt(l.rest);
      IntLoads(l.rest);
      var four := Take(m.rest, 4);
      var n := ReadInt(four.rest);
      IntLoads(four.rest);
      IntVectorLoads(n.rest, n.value);
      var c := ReadInts(n.rest, n.value);
      var k := ReadInt(c.rest);
      IntLoads(c.rest);
      ConstsLoad(k.rest, k.value);
      IntLoads(ReadConsts(k.rest, k.value).rest);
    }
  }

  /** What a function that was loaded is like. */
  ghost predicate Loaded(f: Proto, depth: nat, check: Proto -> bool) {
    Fits(f) && AllSources(f) && Loadable(f, depth, check)
  }

  ghost predicate AllLoaded(ps: seq<Proto>, depth: nat, check: Proto -> bool) {
    LoadableAll(ps, depth, check) && forall i :: 0 <= i < |ps| ==> Fits(ps[i]) && AllSources(ps[i])
  }

  lemma AssembledLoaded(h: Head, parent: Option<Text>, ps: seq<Proto>, d: Debug, depth: nat, check: Proto -> bool)
    requires HeadFits(h) && DebugFits(d) && parent.Some? && TextFits(parent) && depth < MAXCCALLS
    requires |ps| == h.np && AllLoaded(ps, depth + 1, check) && check(Assembled(h, parent, ps, d))
    ensures Loaded(Assembled(h, parent, ps, d), depth, check)
  {
    hide TextFits, ConstFits;
    LoadableIs(Assembled(h, parent, ps, d), depth, check);
  }

  /** A function loads only when everything in it has its range, every function has a source, and
      the loader accepts it. */
  lemma {:induction false} FunctionLoads(b: Bytes, parent: Option<Text>, depth: nat, check: Proto -> bool)
    requires depth <= MAXCCALLS && parent.Some? && TextFits(parent)
    ensures var r := ReadFunction(b, parent, depth, check);
            r.Got? ==> Loaded(r.value, depth, check)
    decreases MAXCCALLS - depth, 1, 0
  {
    hide ReadHead, ReadDebug, HeadFits, DebugFits, Assembled, Loaded, ReadProtos, AllLoaded;
    if ReadFunction(b, parent, depth, check).Got? {
      var h := ReadHead(b);
      HeadLoads(b);
      var source := if h.value.source.None? then parent else h.value.source;
      SourceFits(h.value, parent);
      ProtosLoad(h.rest, h.value.np, source, depth + 1, check);
      var ps := ReadProtos(h.rest, h.value.np, source, depth + 1, check);
      DebugLoads(ps.rest);
      AssembledLoaded(h.value, parent, ps.value, ReadDebug(ps.rest).value, depth, check);
    }
  }

  lemma SourceFits(h: Head, parent: Option<Text>)
    requires HeadFits(h) && parent.Some? && TextFits(parent)
    ensures TextFits(if h.source.None? then parent else h.source)
  {
  }

  lemma {:induction false} ProtosLoad(b: Bytes, n: nat, parent: Option<Text>, depth: nat, check: Proto -> bool)
    requires depth <= MAXCCALLS && parent.Some? && TextFits(parent)
    ensures var r := ReadProtos(b, n, parent, depth, check);
            r.Got? ==> |r.value| == n && AllLoaded(r.value, depth, check)
    decreases MAXCCALLS - depth, 2, n
  {
    hide ReadFunction, Fits, AllSources, Loadable;
    if n > 0 && ReadFunction(b, parent, depth, check).Got? {
      var f := ReadFunction(b, parent, depth, check);
      FunctionLoads(b, parent, depth, check);
      ProtosLoad(f.rest, n - 1, parent, depth, check);
      if ReadProtos(b, n, parent, depth, check).Got? {
        var r := ReadProtos(f.rest, n - 1, parent, depth, check);
        assert ([f.value] + r.value)[1..] == r.value;
      }
    }
  }

  /** Whatever bytes loaded: the dump of what they gave loads as the same function. */
  lemma Reload(b: Bytes, calls: nat, check: Proto -> bool)
    requires calls <= MAXCCALLS && Undump(b, calls, check).Got?
    ensures var f := Undump(b, calls, check).value;
            && Fits(f) && AllSources(f) && Loadable(f, calls, check)
            && Undump(Dump(f, false), calls, check) == Got(f, [])
  {
    hide ReadFunction, Fits, AllSources, Loadable, DumpFunction;
    FunctionLoads(Take(b, |HEADER|).rest, Some(NO_SOURCE), calls, check);
    RoundTrip(Undump(b, calls, check).value, calls, check);
  }
}
