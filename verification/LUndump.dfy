/** Reading a precompiled function from a stream that a reader delivers in pieces (lundump.c,
    lzio.c). */
module LUndump {
  import opened Common
  import opened Bytecode
  import opened BytecodeLayout
  import opened BytecodeProof

  const EOZ: int := -1

  /** The bytes a reader still delivers: an empty piece ends the stream. */
  function Flat(pieces: seq<Bytes>): Bytes {
    if pieces == [] || pieces[0] == [] then [] else pieces[0] + Flat(pieces[1..])
  }

  function Concat(pieces: seq<Bytes>): Bytes {
    if pieces == [] then [] else pieces[0] + Concat(pieces[1..])
  }

  lemma {:induction false} FlatIsConcat(pieces: seq<Bytes>)
    requires forall i :: 0 <= i < |pieces| ==> pieces[i] != []
    ensures Flat(pieces) == Concat(pieces)
    decreases |pieces|
  {
    if pieces != [] { FlatIsConcat(pieces[1..]); }
  }

  /** ZIO: the piece at hand, how much of it is unread, and what the reader will deliver. */
  class Zio {
    var buff: Bytes
    var p: nat            // current position in buff
    var n: nat            // bytes still unread
    var pieces: seq<Bytes>

    constructor (pieces: seq<Bytes>)
      ensures Valid() && Rest() == Flat(pieces) && fresh(this)
    {
      buff := [];
      p := 0;
      n := 0;
      this.pieces := pieces;
    }

    ghost predicate Valid()
      reads this
    {
      p + n == |buff|
    }

    ghost function Rest(): Bytes
      reads this
      requires Valid()
    {
      buff[p..] + Flat(pieces)
    }

    /** luaZ_fill: the next piece; its first byte is consumed. */
    method Fill() returns (c: int)
      requires Valid() && n == 0
      modifies this
      ensures Valid()
      ensures c == EOZ ==> old(Rest()) == [] && n == 0
      ensures c != EOZ ==> p > 0 && buff[p - 1] == c && old(Rest()) == [buff[p - 1]] + Rest()
    {
      assert buff[p..] == [];
      if pieces == [] { return EOZ; }
      var chunk := pieces[0];
      pieces := pieces[1..];
      if |chunk| == 0 { return EOZ; }
      n := |chunk| - 1;
      buff := chunk;
      p := 1;
      assert chunk == [chunk[0]] + chunk[1..];
      c := chunk[0];
    }

    /** luaZ_lookahead: a byte is at hand, or the stream is at its end. */
    method Lookahead() returns (c: int)
      requires Valid()
      modifies this
      ensures Valid()
      ensures c == EOZ ==> old(Rest()) == [] && n == 0
      ensures c != EOZ ==> n > 0 && Rest() == old(Rest()) && c == buff[p]
    {
      if n == 0 {
        var first := Fill();
        if first == EOZ { return EOZ; }
        n := n + 1;
        p := p - 1;
        assert buff[p..] == [buff[p]] + buff[p + 1..];
      }
      c := buff[p];
    }

    /** luaZ_read: the next count bytes, however the pieces cut them. */
    method Read(count: nat) returns (b: Bytes, missing: nat)
      requires Valid()
      modifies this
      ensures Valid() && missing == (if count <= |old(Rest())| then 0 else count - |old(Rest())|)
      ensures missing == 0 ==> old(Rest()) == b + Rest() && |b| == count
    {
      hide Flat;
      b := [];
      missing := count;
      ghost var all := Rest();
      while missing > 0
        invariant Valid() && |b| + missing == count && all == b + Rest()
      {
        var c := Lookahead();
        if c == EOZ { return; }
        var m := if missing <= n then missing else n;
        ghost var before := b;
        var part := TakePart(m);
        b := b + part;
        Assoc(before, part, Rest());
        missing := missing - m;
      }
    }

    /** The bytes that luaZ_read copies at once. */
    method TakePart(m: nat) returns (b: Bytes)
      requires Valid() && m <= n
      modifies this`n, this`p
      ensures Valid() && |b| == m && old(Rest()) == b + Rest()
    {
      hide Flat;
      Piece([], buff, p, m, Flat(pieces));
      b := buff[p..p + m];
      n := n - m;
      p := p + m;
    }
  }

  lemma Piece(b: Bytes, buff: Bytes, p: nat, m: nat, rest: Bytes)
    requires p + m <= |buff|
    ensures b + (buff[p..] + rest) == b + buff[p..p + m] + (buff[p + m..] + rest)
  {
    assert buff[p..] == buff[p..p + m] + buff[p + m..];
  }

  lemma TakeIs(b: Bytes, a: Bytes, rest: Bytes, n: nat)
    requires b == a + rest && |a| == n
    ensures Take(b, n) == Got(a, rest)
  {
    Front(a, rest);
  }

  /** LoadState. */
  class LoadState {
    const z: Zio
    const check: Proto -> bool   // luaG_checkcode
    var calls: nat               // nCcalls

    constructor (z: Zio, calls: nat, check: Proto -> bool)
      ensures this.z == z && this.calls == calls && this.check == check
    {
      this.z := z;
      this.calls := calls;
      this.check := check;
    }

    /** LoadBlock. */
    method LoadBlock(size: nat) returns (ok: bool, b: Bytes)
      requires z.Valid()
      modifies z
      ensures z.Valid() && ok == Take(old(z.Rest()), size).Got?
      ensures ok ==> Take(old(z.Rest()), size) == Got(b, z.Rest()) && |b| == size
    {
      var r;
      b, r := z.Read(size);
      ok := r == 0;
      if ok { TakeIs(old(z.Rest()), b, z.Rest(), size); }
    }

    method LoadInt() returns (ok: bool, x: nat)
      requires z.Valid()
      modifies z
      ensures z.Valid() && ok == ReadInt(old(z.Rest())).Got? && (ok ==> ReadInt(old(z.Rest())) == Got(x, z.Rest()))
    {
      var b;
      ok, b := LoadBlock(INT_BYTES);
      x := 0;
      if !ok { return; }
      if IntOf(b) < 0 { return false, 0; }
      x := IntOf(b);
    }

    method LoadString() returns (ok: bool, s: Option<Text>)
      requires z.Valid()
      modifies z
      ensures z.Valid() && ok == ReadText(old(z.Rest())).Got? && (ok ==> ReadText(old(z.Rest())) == Got(s, z.Rest()))
    {
      s := None;
      var b;
      ok, b := LoadBlock(SIZE_BYTES);
      if !ok { return; }
      var size := FromWord(b);
      if size == 0 { return true, None; }
      var t;
      ok, t := LoadBlock(size);
      if ok { s := Some(t[..size - 1]); }
    }

    method LoadInts(n: nat) returns (ok: bool, xs: seq<int>)
      requires z.Valid()
      modifies z
      ensures z.Valid() && ok == ReadInts(old(z.Rest()), n).Got?
          && (ok ==> ReadInts(old(z.Rest()), n) == Got(xs, z.Rest()))
    {
      xs := [];
      var b;
      ok, b := LoadBlock(INT_BYTES * n);
      if ok { xs := IntsOf(b, n); }
    }

    method LoadConst() returns (ok: bool, c: Const)
      requires z.Valid()
      modifies z
      ensures z.Valid() && ok == ReadConst(old(z.Rest())).Got? && (ok ==> ReadConst(old(z.Rest())) == Got(c, z.Rest()))
    {
      hide ReadText;
      c := KNil;
      ghost var all := z.Rest();
      var t;
      ok, t := LoadBlock(1);
      OneByte(all);
      if !ok { return; }
      if t[0] == LUA_TNIL { return; }
      if t[0] == LUA_TBOOLEAN {
        ghost var rest := z.Rest();
        var b;
        ok, b := LoadBlock(1);
        OneByte(rest);
        if ok { c := KBool(b[0] != 0); assert rest[1..] == all[2..]; }
      } else if t[0] == LUA_TNUMBER {
        var b;
        ok, b := LoadBlock(NUMBER_BYTES);
        if ok { c := KNumber(b); }
      } else if t[0] == LUA_TSTRING {
        var s;
        ok, s := LoadString();
        if ok { c := KString(s); }
      } else {
        ok := false;
      }
    }

    /** The loop of LoadConstants. */
    method LoadConsts(n: nat) returns (ok: bool, ks: seq<Const>)
      requires z.Valid()
      modifies z
      ensures z.Valid() && ok == ReadConsts(old(z.Rest()), n).Got?
          && (ok ==> ReadConsts(old(z.Rest()), n) == Got(ks, z.Rest()))
    {
      hide ReadConst;
      ghost var all := z.Rest();
      ks := [];
      ok := true;
      MoreNone(ReadConsts(z.Rest(), n));
      var i := 0;
      while i < n
        invariant 0 <= i <= n && z.Valid() && ReadConsts(all, n) == More(ks, ReadConsts(z.Rest(), n - i))
      {
        ghost var ks0 := ks;
        var c;
        ok, c := LoadConst();
        if !ok { return; }
        ks := ks + [c];
        MoreOne(ks0, c, ReadConsts(z.Rest(), n - i - 1));
        i := i + 1;
      }
      assert ks + [] == ks;
    }

    method LoadLocVar() returns (ok: bool, v: LocVar)
      requires z.Valid()
      modifies z
      ensures z.Valid() && ok == ReadLocVar(old(z.Rest())).Got?
          && (ok ==> ReadLocVar(old(z.Rest())) == Got(v, z.Rest()))
    {
      hide ReadText, ReadInt;
      v := LocVar(None, 0, 0);
      var s, a, b;
      ok, s := LoadString();
      if !ok { return; }
      ok, a := LoadInt();
      if !ok { return; }
      ok, b := LoadInt();
      if ok { v := LocVar(s, a, b); }
    }

    method LoadLocVars(n: nat) returns (ok: bool, vs: seq<LocVar>)
      requires z.Valid()
      modifies z
      ensures z.Valid() && ok == ReadLocVars(old(z.Rest()), n).Got?
          && (ok ==> ReadLocVars(old(z.Rest()), n) == Got(vs, z.Rest()))
    {
      hide ReadLocVar;
      ghost var all := z.Rest();
      vs := [];
      ok := true;
      MoreNone(ReadLocVars(z.Rest(), n));
      var i := 0;
      while i < n
        invariant 0 <= i <= n && z.Valid() && ReadLocVars(all, n) == More(vs, ReadLocVars(z.Rest(), n - i))
      {
        ghost var vs0 := vs;
        var v;
        ok, v := LoadLocVar();
        if !ok { return; }
        vs := vs + [v];
        MoreOne(vs0, v, ReadLocVars(z.Rest(), n - i - 1));
        i := i + 1;
      }
      assert vs + [] == vs;
    }

    method LoadTexts(n: nat) returns (ok: bool, ts: seq<Option<Text>>)
      requires z.Valid()
      modifies z
      ensures z.Valid() && ok == ReadTexts(old(z.Rest()), n).Got?
          && (ok ==> ReadTexts(old(z.Rest()), n) == Got(ts, z.Rest()))
    {
      hide ReadText;
      ghost var all := z.Rest();
      ts := [];
      ok := true;
      MoreNone(ReadTexts(z.Rest(), n));
      var i := 0;
      while i < n
        invariant 0 <= i <= n && z.Valid() && ReadTexts(all, n) == More(ts, ReadTexts(z.Rest(), n - i))
      {
        ghost var ts0 := ts;
        var t;
        ok, t := LoadString();
        if !ok { return; }
        ts := ts + [t];
        MoreOne(ts0, t, ReadTexts(z.Rest(), n - i - 1));
        i := i + 1;
      }
      assert ts + [] == ts;
    }

    /** LoadDebug. */
    method LoadDebug() returns (ok: bool, d: Debug)
      requires z.Valid()
      modifies z
      ensures z.Valid() && ok == ReadDebug(old(z.Rest())).Got? && (ok ==> ReadDebug(old(z.Rest())) == Got(d, z.Rest()))
    {
      hide ReadInt, ReadInts, ReadLocVars, ReadTexts;
      d := Debug([], [], []);
      var n, lines, vars, ups;
      ok, n := LoadInt();
      if !ok { return; }
      ok, lines := LoadInts(n);
      if !ok { return; }
      ok, n := LoadInt();
      if !ok { return; }
      ok, vars := LoadLocVars(n);
      if !ok { return; }
      ok, n := LoadInt();
      if !ok { return; }
      ok, ups := LoadTexts(n);
      if ok { d := Debug(lines, vars, ups); }
    }

    /** LoadFunction up to its nested functions. */
    method LoadHead() returns (ok: bool, h: Head)
      requires z.Valid()
      modifies z
      ensures z.Valid() && ok == ReadHead(old(z.Rest())).Got?
          && (ok ==> ReadHead(old(z.Rest())) == Got(h, z.Rest()) && |h.bytes| == 4)
    {
      hide ReadText, ReadInt, ReadInts, ReadConsts, Take;
      h := Head(None, 0, 0, [], [], [], 0);
      var source, line, last, four, n, code, k;
      ok, source := LoadString();
      if !ok { return; }
      ok, line := LoadInt();
      if !ok { return; }
      ok, last := LoadInt();
      if !ok { return; }
      ok, four := LoadBlock(4);
      if !ok { return; }
      ok, n := LoadInt();
      if !ok { return; }
      ok, code := LoadInts(n);
      if !ok { return; }
      ok, n := LoadInt();
      if !ok { return; }
      ok, k := LoadConsts(n);
      if !ok { return; }
      ok, n := LoadInt();
      if ok { h := Head(source, line, last, four, code, k, n); }
    }

    /** LoadFunction. */
    method LoadFunction(parent: Option<Text>) returns (ok: bool, f: Proto)
      requires z.Valid() && calls <= MAXCCALLS
      modifies z, this
      ensures z.Valid() && ok == ReadFunction(old(z.Rest()), parent, old(calls), check).Got?
      ensures ok ==> ReadFunction(old(z.Rest()), parent, old(calls), check) == Got(f, z.Rest()) && calls == old(calls)
      decreases MAXCCALLS - calls, 1, 0
    {
      hide ReadHead, ReadProtos, ReadDebug, Assembled;
      f := EMPTY;
      ghost var b := z.Rest();
      calls := calls + 1;
      if calls > MAXCCALLS { return false, f; }
      var h, ps, d;
      ok, h := LoadHead();
      ghost var b1 := z.Rest();
      if !ok { return; }
      ok, ps := LoadProtos(h.np, if h.source.None? then parent else h.source);
      ghost var b2 := z.Rest();
      if !ok { return; }
      ok, d := LoadDebug();
      if !ok { return; }
      var g := Assembled(h, parent, ps, d);
      ok := check(g);
      if !ok { return; }
      calls := calls - 1;
      f := g;
    }

    /** The second loop of LoadConstants. */
    method LoadProtos(n: nat, parent: Option<Text>) returns (ok: bool, ps: seq<Proto>)
      requires z.Valid() && calls <= MAXCCALLS
      modifies z, this
      ensures z.Valid() && ok == ReadProtos(old(z.Rest()), n, parent, old(calls), check).Got?
      ensures ok ==> ReadProtos(old(z.Rest()), n, parent, old(calls), check) == Got(ps, z.Rest()) && calls == old(calls)
      decreases MAXCCALLS - calls, 2, 0
    {
      hide ReadFunction;
      ghost var all := z.Rest();
      ps := [];
      ok := true;
      MoreNone(ReadProtos(z.Rest(), n, parent, calls, check));
      var i := 0;
      while i < n
        invariant 0 <= i <= n && z.Valid() && calls == old(calls)
        invariant ReadProtos(all, n, parent, calls, check) ==
            More(ps, ReadProtos(z.Rest(), n - i, parent, calls, check))
      {
        ghost var ps0 := ps;
        var f;
        ok, f := LoadFunction(parent);
        if !ok { return; }
        ps := ps + [f];
        MoreOne(ps0, f, ReadProtos(z.Rest(), n - i - 1, parent, calls, check));
        i := i + 1;
      }
      assert ps + [] == ps;
    }

    /** luaU_undump. */
    method LoadAll() returns (ok: bool, f: Proto)
      requires z.Valid() && calls <= MAXCCALLS
      modifies z, this
      ensures z.Valid() && ok == Undump(old(z.Rest()), old(calls), check).Got?
      ensures ok ==> Undump(old(z.Rest()), old(calls), check) == Got(f, z.Rest())
    {
      hide ReadFunction;
      f := EMPTY;
      var h;
      ok, h := LoadBlock(|HEADER|);
      if !ok { return; }
      if h != HEADER { return false, f; }
      ok, f := LoadFunction(Some(NO_SOURCE));
    }
  }

  const EMPTY := Proto(None, 0, 0, 0, 0, 0, 0, [], [], [], [], [], [])

  lemma OneByte(b: Bytes)
    ensures Take(b, 1) == if b == [] then Bad else Got([b[0]], b[1..])
  {
    if b != [] { assert b[..1] == [b[0]]; }
  }

  function More<T>(a: seq<T>, r: Read<seq<T>>): Read<seq<T>> {
    if r.Bad? then Bad else Got(a + r.value, r.rest)
  }

  lemma MoreNone<T>(r: Read<seq<T>>)
    ensures More([], r) == r
  {
    if r.Got? { assert [] + r.value == r.value; }
  }

  lemma MoreOne<T>(a: seq<T>, x: T, r: Read<seq<T>>)
    ensures More(a + [x], r) == if r.Bad? then Bad else Got(a + ([x] + r.value), r.rest)
  {
    if r.Got? { assert a + [x] + r.value == a + ([x] + r.value); }
  }

  /** Dumping a function and loading it through any cut into pieces that are not empty gives it
      back, just when all its functions have sources and the loader accepts it. */
  method ReloadPieces(f: Proto, pieces: seq<Bytes>, calls: nat, check: Proto -> bool) returns (ok: bool, g: Proto)
    requires Fits(f) && calls <= MAXCCALLS && (forall i :: 0 <= i < |pieces| ==> pieces[i] != [])
        && Concat(pieces) == ChunkLayout(f, false)
    ensures ok && g == f <==> AllSources(f) && Loadable(f, calls, check)
  {
    hide Fits, Dump, Undump, Loadable, AllSources, Flat, ChunkLayout;
    DumpIs(f, false);
    FlatIsConcat(pieces);
    RoundTrip(f, calls, check);
    AllRead(f, calls, check);
    var z := new Zio(pieces);
    var s := new LoadState(z, calls, check);
    ok, g := s.LoadAll();
  }

  lemma AllRead(f: Proto, calls: nat, check: Proto -> bool)
    requires Fits(f) && calls <= MAXCCALLS
    ensures Undump(Dump(f, false), calls, check).Got? ==> Undump(Dump(f, false), calls, check).rest == []
  {
    hide DumpFunction, ReadFunction, Loadable, Fits, Reloaded;
    var b := DumpFunction(f, None, false);
    Front(HEADER, b);
    assert b + [] == b;
    FunctionRead(f, None, Some(NO_SOURCE), false, [], calls, check);
  }
}
