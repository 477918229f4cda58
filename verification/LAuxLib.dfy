/** References: luaL_ref and luaL_unref keep a free list in the slots of a table (lauxlib.c). */
module LAuxLib {
  import opened TableNodes
  import opened TableSizes
  import opened LTable

  const LUA_REFNIL: int := -1
  const FREELIST_REF: int := 0

  /** lua_tointeger on the value of a slot: 0 when it is no number. */
  function ToInteger(v: Value): int {
    if v.Int? then v.i else 0
  }

  /** v links to the rest of the free list. */
  predicate LinksTo(v: Value, rest: seq<int>) {
    if rest == [] then v == Nil || v == Int(0) else v == Int(rest[0])
  }

  /** Every live reference reads its value. */
  ghost predicate LiveOk(get: Value -> Value, live: map<int, Value>) {
    forall r :: r in live ==> r >= 1 && live[r] != Nil && get(Int(r)) == live[r]
  }

  /** The free list has no cycle, and no live reference is in it. */
  ghost predicate FreeApart(live: map<int, Value>, free: seq<int>) {
    && (forall i :: 0 <= i < |free| ==> free[i] >= 1 && free[i] !in live)
    && (forall i, j :: 0 <= i < j < |free| ==> free[i] != free[j])
  }

  /** The slots of the free references link them, from slot 0 on. */
  ghost predicate Threaded(get: Value -> Value, free: seq<int>) {
    && LinksTo(get(Int(0)), free)
    && (forall i :: 0 <= i < |free| ==> LinksTo(get(Int(free[i])), free[i + 1..]))
  }

  /** The values get(0), get(1), ... hold the live references and, through slot 0, the free ones. */
  ghost predicate RefsOk(get: Value -> Value, live: map<int, Value>, free: seq<int>) {
    LiveOk(get, live) && FreeApart(live, free) && Threaded(get, free)
  }

  /** What an assignment does to the values. */
  ghost function Put(get: Value -> Value, k: int, v: Value): Value -> Value {
    x => if x == Int(k) then v else get(x)
  }

  lemma TailThreaded(get: Value -> Value, get': Value -> Value, free: seq<int>)
    requires free != [] && Threaded(get, free)
        && (forall i :: 0 < i < |free| ==> get'(Int(free[i])) == get(Int(free[i])))
    requires get'(Int(0)) == get(Int(free[0]))
    ensures Threaded(get', free[1..])
  {
    hide LinksTo;
    assert free[0 + 1..] == free[1..];
    forall i | 0 <= i < |free[1..]| ensures LinksTo(get'(Int(free[1..][i])), free[1..][i + 1..]) {
      assert free[1..][i] == free[i + 1] && free[1..][i + 1..] == free[i + 1 + 1..];
    }
  }

  lemma HeadThreaded(get: Value -> Value, get': Value -> Value, free: seq<int>, r: int)
    requires Threaded(get, free) && (forall i :: 0 <= i < |free| ==> get'(Int(free[i])) == get(Int(free[i])))
    requires get'(Int(0)) == Int(r) && get'(Int(r)) == get(Int(0))
    ensures Threaded(get', [r] + free)
  {
    var f := [r] + free;
    assert LinksTo(get'(Int(0)), f);
    hide LinksTo;
    assert f[0 + 1..] == free;
    forall i | 0 <= i < |f| ensures LinksTo(get'(Int(f[i])), f[i + 1..]) {
      if i > 0 { assert f[i] == free[i - 1] && f[i + 1..] == free[i - 1 + 1..]; }
    }
  }

  /** The head leaves the free list; it is neither live nor in the rest of the list. */
  lemma ReuseOk(get: Value -> Value, live: map<int, Value>, free: seq<int>)
    requires RefsOk(get, live, free) && free != []
    ensures RefsOk(Put(get, 0, get(Int(free[0]))), live, free[1..])
    ensures free[0] >= 1 && free[0] !in live && free[0] !in free[1..]
    ensures get(Int(0)) != Nil && (get(Int(free[0])) == Nil ==> free[1..] == [])
  {
    assert free[0 + 1..] == free[1..] && LinksTo(get(Int(free[0])), free[0 + 1..]);
    hide Threaded;
    TailThreaded(get, Put(get, 0, get(Int(free[0]))), free);
  }

  /** A slot that is neither live nor free becomes a live reference. */
  lemma PlaceOk(get: Value -> Value, live: map<int, Value>, free: seq<int>, r: int, v: Value)
    requires RefsOk(get, live, free) && r >= 1 && r !in live && r !in free && v != Nil
    ensures RefsOk(Put(get, r, v), live[r := v], free)
  {
    hide LinksTo;
    forall i | 0 <= i < |free| ensures LinksTo(Put(get, r, v)(Int(free[i])), free[i + 1..]) {
      assert free[i] in free;
    }
  }

  /** A reference goes to the head of the free list. */
  lemma FreeOk(get: Value -> Value, live: map<int, Value>, free: seq<int>, r: int)
    requires RefsOk(get, live, free) && r in live
    ensures RefsOk(Put(Put(get, r, get(Int(0))), 0, Int(r)), live - {r}, [r] + free)
  {
    hide Threaded;
    HeadThreaded(get, Put(Put(get, r, get(Int(0))), 0, Int(r)), free, r);
    assert forall i :: 0 < i < |[r] + free| ==> ([r] + free)[i] == free[i - 1];
  }

  /** Without a slot 0, it is only forgotten. */
  lemma ForgetOk(get: Value -> Value, live: map<int, Value>, free: seq<int>, r: int)
    requires RefsOk(get, live, free) && r in live && get(Int(0)) == Nil
    ensures free == [] && RefsOk(Put(get, r, Nil), live - {r}, [])
  {
  }

  /** The table of references; `live` maps each reference in use to its value. */
  class Refs {
    const t: Table
    ghost var live: map<int, Value>
    ghost var free: seq<int>

    /** The values of the table. */
    ghost function Values(): Value -> Value
      reads this, t, t.slots, t.node
    {
      var a, ns := t.slots[..], t.node[..];
      k => Lookup(a, ns, k)
    }

    ghost predicate Valid()
      reads this, t, t.slots, t.node
    {
      t.Valid() && t.slots.Length <= MAXASIZE && RefsOk(Values(), live, free)
    }

    /** How many keys the table has. */
    ghost function Size(): nat
      reads t, t.slots, t.node
    {
      |Keys(t.slots[..], t.node[..])|
    }

    constructor (t: Table)
      requires t.Valid() && t.slots.Length <= MAXASIZE && t.ValueOf(Int(0)) == Nil
      ensures Valid() && live == map[] && free == [] && this.t == t
    {
      this.t := t;
      live := map[];
      free := [];
    }

    /** A value of the table, as rawgeti reads it. */
    method RawGetI(k: int) returns (v: Value)
      requires Valid()
      ensures v == Values()(Int(k))
    {
      hide RefsOk, Table.Valid;
      v := t.Get(Int(k));
    }

    /** rawseti. Only a key without a value may find the table full, and then nothing changes. */
    method RawSetI(k: int, v: Value) returns (ok: bool)
      requires t.Valid() && t.slots.Length <= MAXASIZE
      modifies t, t.slots, t.node
      ensures t.Valid() && t.slots.Length <= MAXASIZE
      ensures forall x :: Values()(x) == if ok then Put(old(Values()), k, v)(x) else old(Values())(x)
      ensures !ok ==> old(Size()) >= MAXASIZE && old(Values())(Int(k)) == Nil
      ensures Size() <= old(Size()) + if ok && old(Values())(Int(k)) == Nil then 1 else 0
      ensures (t.slots == old(t.slots) || fresh(t.slots)) && (t.node == old(t.node) || fresh(t.node))
    {
      hide Table.Valid, Lookup, Keys, TooMany, Roomy, KeysOk, Apart;
      CountedRoomy(t.slots[..], t.node[..], Int(k));
      ghost var a, ns := t.slots[..], t.node[..];
      var r := t.Set(Int(k), v);
      ok := r.Ok?;
      if !ok {
        assert r == Err(r.error) && r.error != NilIndex;
        ManyKeys(a, ns, Int(k));
      }
      forall x ensures Lookup(t.slots[..], t.node[..], x) == if ok && x == Int(k) then v else Lookup(a, ns, x) {
        assert t.ValueOf(x) == if ok && x == Int(k) then v else old(t.ValueOf(x));
      }
      PartsOk(t);
      SameOrMore(a, ns, t.slots[..], t.node[..], k, v, ok);
    }

    /** luaL_ref takes the first element of the free list. */
    method TakeFree(ref: int)
      requires Valid() && free != [] && ref == free[0]
      modifies this`free, t, t.slots, t.node
      ensures Valid() && free == old(free)[1..] && ref >= 1 && ref !in live && ref !in free
      ensures Size() <= old(Size()) && (Values()(Int(ref)) == Nil ==> free == [])
      ensures (t.slots == old(t.slots) || fresh(t.slots)) && (t.node == old(t.node) || fresh(t.node))
    {
      hide RefsOk, Table.Valid, Lookup, Keys;
      ghost var get := Values();
      ReuseOk(get, live, free);
      var next := RawGetI(ref);
      var ok := RawSetI(FREELIST_REF, next);
      free := free[1..];
      SameRefs(Put(get, 0, next), Values(), live, free);
    }

    /** luaL_ref puts the value in the slot of its reference. */
    method Place(ref: int, v: Value) returns (ok: bool)
      requires Valid() && v != Nil && ref >= 1 && ref !in live && ref !in free
      modifies this`live, t, t.slots, t.node
      ensures Valid() && live == if ok then old(live)[ref := v] else old(live)
      ensures !ok ==> old(Size()) >= MAXASIZE && old(Values())(Int(ref)) == Nil
      ensures Size() <= old(Size()) + 1
      ensures (t.slots == old(t.slots) || fresh(t.slots)) && (t.node == old(t.node) || fresh(t.node))
    {
      hide RefsOk, Table.Valid, Lookup, Put, Keys;
      ghost var get := Values();
      PlaceOk(get, live, free, ref, v);
      ok := RawSetI(ref, v);
      if ok {
        live := live[ref := v];
        SameRefs(Put(get, ref, v), Values(), live, free);
      } else {
        SameRefs(get, Values(), live, free);
      }
    }

    /** luaL_ref: the reference was not live, and now it has the value. The one that was freed last
        is used first. When the table is full, the live references stay as they were. */
    method Ref(v: Value) returns (ok: bool, ref: int)
      requires Valid()
      modifies this, t, t.slots, t.node
      ensures Valid()
      ensures v == Nil ==> ok && ref == -1 && live == old(live) && free == old(free)
      ensures v != Nil && ok ==> ref >= 1 && ref !in old(live) && live == old(live)[ref := v]
      ensures v != Nil && ok ==> if old(free) != [] then [ref] + free == old(free) else free == []
      ensures !ok ==> live == old(live) && |old(free)| <= 1 && free == [] && old(Size()) >= MAXASIZE
      ensures Size() <= old(Size()) + 1
      ensures (t.slots == old(t.slots) || fresh(t.slots)) && (t.node == old(t.node) || fresh(t.node))
    {
      hide RefsOk, Table.Valid, Lookup, Keys;
      if v == Nil { return true, LUA_REFNIL; }
      var first := RawGetI(FREELIST_REF);
      ref := ToInteger(first);
      HeadOf(Values(), live, free);
      if ref != 0 {
        TakeFree(ref);
      } else {
        var n := t.GetN();
        ref := n + 1;
        Unused(Values(), live, free, ref);
      }
      ok := Place(ref, v);
    }

    /** luaL_unref: a live reference is live no longer and joins the free list, unless the table has
        no room for slot 0; negative ones are no references. */
    method Unref(ref: int) returns (ok: bool)
      requires Valid() && (ref >= 0 ==> ref in live)
      modifies this, t, t.slots, t.node
      ensures Valid() && live == old(live) - {ref}
      ensures ref < 0 ==> ok && free == old(free)
      ensures ref >= 0 && ok ==> free == [ref] + old(free)
      ensures !ok ==> free == old(free) == [] && old(Size()) >= MAXASIZE
      ensures Size() <= old(Size()) + 1
      ensures (t.slots == old(t.slots) || fresh(t.slots)) && (t.node == old(t.node) || fresh(t.node))
    {
      hide RefsOk, Table.Valid, Lookup, Put, Keys;
      ghost var get, l, f := Values(), live, free;
      LivePositive(get, l, f, ref);
      if ref < 0 { return true; }
      var first := RawGetI(FREELIST_REF);
      ok := RawSetI(ref, first);
      ghost var mid := Values();
      ok := RawSetI(FREELIST_REF, Int(ref));
      UnrefOk(get, mid, Values(), l, f, ref, first, ok);
      live, free := l - {ref}, if ok then [ref] + f else [];
    }

    /** A live reference still reads its value. */
    method Deref(ref: int) returns (v: Value)
      requires Valid() && ref in live
      ensures v == live[ref]
    {
      hide Table.Valid, Lookup;
      v := RawGetI(ref);
    }
  }

  lemma HeadOf(get: Value -> Value, live: map<int, Value>, free: seq<int>)
    requires RefsOk(get, live, free)
    ensures var r := ToInteger(get(Int(0))); if r != 0 then free != [] && r == free[0] && r >= 1 else free == []
  {
  }

  lemma LivePositive(get: Value -> Value, live: map<int, Value>, free: seq<int>, r: int)
    requires RefsOk(get, live, free)
    ensures r in live ==> r >= 1 && get(Int(r)) != Nil
    ensures r !in live ==> live - {r} == live
  {
  }

  lemma SameOrMore(a: seq<Value>, ns: seq<Node>, a': seq<Value>, ns': seq<Node>, k: int, v: Value, ok: bool)
    requires KeysOk(ns') && Apart(|a'|, ns')
    requires forall x :: Lookup(a', ns', x) == if ok && x == Int(k) then v else Lookup(a, ns, x)
    ensures |Keys(a', ns')| <= |Keys(a, ns)| + if ok && Lookup(a, ns, Int(k)) == Nil then 1 else 0
  {
    hide Lookup, Keys;
    if ok {
      OneMoreKey(a, ns, a', ns', Int(k));
    } else {
      forall x | x in Keys(a', ns') ensures x in Keys(a, ns) {
        LiveLookup(a', ns', x);
        KeyOf(a, ns, x);
      }
      Subset(Keys(a', ns'), Keys(a, ns));
    }
  }

  lemma PartsOk(t: Table)
    requires t.Valid()
    ensures KeysOk(t.node[..]) && Apart(|t.slots[..]|, t.node[..])
  {
    NodesOf(t.slots[..], t.node[..], t.lastfree, t.dummy, t.rank, t.hash);
  }

  lemma Unused(get: Value -> Value, live: map<int, Value>, free: seq<int>, r: int)
    requires RefsOk(get, live, free) && get(Int(r)) == Nil
    ensures r !in live
  {
  }

  /** What the two assignments of luaL_unref do, the second of which may be refused. */
  lemma UnrefOk(get: Value -> Value, mid: Value -> Value, end: Value -> Value, live: map<int, Value>, free: seq<int>,
      r: int, first: Value, ok: bool)
    requires RefsOk(get, live, free) && r in live && first == get(Int(0))
    requires forall x :: mid(x) == Put(get, r, first)(x)
    requires forall x :: end(x) == if ok then Put(mid, 0, Int(r))(x) else mid(x)
    requires !ok ==> mid(Int(0)) == Nil
    ensures RefsOk(end, live - {r}, if ok then [r] + free else []) && (!ok ==> free == [])
  {
    hide Threaded, LiveOk;
    if ok {
      FreeOk(get, live, free, r);
      TwoSteps(get, mid, end, r, first, 0, Int(r));
      SameRefs(Put(Put(get, r, first), 0, Int(r)), end, live - {r}, [r] + free);
    } else {
      LivePositive(get, live, free, r);
      assert mid(Int(0)) == Put(get, r, first)(Int(0));
      ForgetOk(get, live, free, r);
      SameRefs(Put(get, r, Nil), end, live - {r}, []);
    }
  }

  lemma TwoSteps(get: Value -> Value, mid: Value -> Value, end: Value -> Value, j: int, v: Value, k: int, w: Value)
    requires (forall x :: mid(x) == Put(get, j, v)(x)) && forall x :: end(x) == Put(mid, k, w)(x)
    ensures forall x :: end(x) == Put(Put(get, j, v), k, w)(x)
  {
    forall x ensures end(x) == Put(Put(get, j, v), k, w)(x) {
      assert mid(x) == Put(get, j, v)(x);
    }
  }

  lemma SameRefs(get: Value -> Value, get': Value -> Value, live: map<int, Value>, free: seq<int>)
    requires RefsOk(get, live, free) && forall x :: get'(x) == get(x)
    ensures RefsOk(get', live, free)
  {
  }

  // ----- runs -----

  /** A call of luaL_ref with a value, or of luaL_unref with a reference. */
  datatype Call = Keep(v: Value) | Drop(ref: int)

  /** What a call of luaL_ref returns, or that a call has raised "table overflow". */
  datatype Answer = Got(ref: int) | Refused

  /** What the program holds, and the references that it has given back, the last one first. */
  datatype Ledger = Ledger(held: map<int, Value>, freed: seq<int>)

  /** The effect of a call on what the program holds, by its answer alone. */
  function Entered(l: Ledger, c: Call, r: Answer): Ledger {
    match c
    case Keep(v) =>
      if v == Nil then l
      else
        var rest := if l.freed == [] then [] else l.freed[1..];
        Ledger(if r.Got? then l.held[r.ref := v] else l.held, rest)
    case Drop(ref) =>
      if ref !in l.held then l
      else Ledger(l.held - {ref}, if r.Got? then [ref] + l.freed else l.freed)
  }

  function After(calls: seq<Call>, rs: seq<Answer>): Ledger
    requires |rs| <= |calls|
  {
    if rs == [] then Ledger(map[], [])
    else Entered(After(calls, rs[..|rs| - 1]), calls[|rs| - 1], rs[|rs| - 1])
  }

  /** The answers that a program may rely on: nil has its own reference, and any other value gets
      one that the program does not hold, the last one that was freed if there is any. */
  predicate Proper(l: Ledger, c: Call, r: Answer) {
    match c
    case Keep(v) =>
      && (v == Nil ==> r == Got(-1))
      && (v != Nil && r.Got? ==> r.ref >= 1 && r.ref !in l.held && (l.freed != [] ==> r.ref == l.freed[0]))
      && (r.Refused? ==> |l.freed| <= 1)
    case Drop(ref) => r.Refused? ==> ref in l.held && l.freed == []
  }

  /** One call; a reference that the program does not hold is not given back. */
  method Perform(refs: Refs, l: Ledger, c: Call) returns (r: Answer)
    requires refs.Valid() && l == Ledger(refs.live, refs.free)
    modifies refs, refs.t, refs.t.slots, refs.t.node
    ensures refs.Valid() && Ledger(refs.live, refs.free) == Entered(l, c, r) && Proper(l, c, r)
    ensures refs.Size() <= old(refs.Size()) + 1 && (r.Refused? ==> old(refs.Size()) >= MAXASIZE)
    ensures refs.t.slots == old(refs.t.slots) || fresh(refs.t.slots)
    ensures refs.t.node == old(refs.t.node) || fresh(refs.t.node)
  {
    hide Refs.Valid, Refs.Size;
    match c {
      case Keep(v) =>
        var ok, ref := refs.Ref(v);
        r := if ok then Got(ref) else Refused;
        if v != Nil && l.freed != [] {
          assert l.freed[1..] == if ok then ([ref] + refs.free)[1..] else [];
        }
      case Drop(ref) =>
        Positive(refs, ref);
        var ok := true;
        if ref < 0 || ref in l.held { ok := refs.Unref(ref); }
        r := if ok then Got(ref) else Refused;
    }
  }

  lemma Positive(refs: Refs, ref: int)
    requires refs.Valid()
    ensures if ref in refs.live then ref >= 1 else refs.live - {ref} == refs.live
  {
    LivePositive(refs.Values(), refs.live, refs.free, ref);
  }

  lemma NextEntry(calls: seq<Call>, rs: seq<Answer>, r: Answer)
    requires |rs| < |calls|
    ensures After(calls, rs + [r]) == Entered(After(calls, rs), calls[|rs|], r)
  {
    assert (rs + [r])[..|rs|] == rs;
  }

  /** After any run of calls, some of which may be refused, every reference that the program
      holds reads the value it was made for, and no call has returned one that was held. A program
      gives back only what it holds. */
  method RunRefs(t: Table, calls: seq<Call>) returns (rs: seq<Answer>, refs: Refs)
    requires t.Valid() && t.slots.Length <= MAXASIZE && t.ValueOf(Int(0)) == Nil
    modifies t, t.slots, t.node
    ensures |rs| == |calls| && refs.t == t && refs.Valid() && Ledger(refs.live, refs.free) == After(calls, rs)
    ensures forall i :: 0 <= i < |calls| ==> Proper(After(calls, rs[..i]), calls[i], rs[i])
    ensures forall r :: r in After(calls, rs).held ==> t.ValueOf(Int(r)) == After(calls, rs).held[r]
    ensures forall i :: 0 <= i < |calls| && rs[i].Refused? ==> old(|Keys(t.slots[..], t.node[..])|) + i >= MAXASIZE
  {
    hide Refs.Valid, After, Proper, Entered, Table.Valid, Table.ValueOf, Keys;
    refs := new Refs(t);
    ghost var size := refs.Size();
    rs := [];
    var l := Ledger(map[], []);
    AfterNone(calls);
    var i := 0;
    while i < |calls|
      invariant 0 <= i == |rs| <= |calls| && refs.t == t && fresh(refs)
      invariant (t.slots == old(t.slots) || fresh(t.slots)) && (t.node == old(t.node) || fresh(t.node))
      invariant refs.Valid() && Ledger(refs.live, refs.free) == l == After(calls, rs)
      invariant forall j :: 0 <= j < i ==> Proper(After(calls, rs[..j]), calls[j], rs[j])
      invariant refs.Size() <= size + i
      invariant forall j :: 0 <= j < i && rs[j].Refused? ==> size + j >= MAXASIZE
    {
      var r := Perform(refs, l, calls[i]);
      NextEntry(calls, rs, r);
      assert forall j :: 0 <= j <= i ==> (rs + [r])[..j] == rs[..j];
      l, rs := Entered(l, calls[i], r), rs + [r];
      i := i + 1;
    }
    LiveReads(refs);
  }

  lemma AfterNone(calls: seq<Call>)
    ensures After(calls, []) == Ledger(map[], [])
  {
  }

  lemma LiveReads(refs: Refs)
    requires refs.Valid()
    ensures forall r :: r in refs.live ==> refs.t.ValueOf(Int(r)) == refs.live[r]
  {
    hide Table.Valid, Lookup;
  }
}
