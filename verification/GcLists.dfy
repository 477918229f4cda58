/** The lists that hold every object: the root list, the string table, and the open
    upvalues of each thread; and what sweeping does to them. */
module GcLists {
  import opened Common
  import opened GcHeap

  ghost predicate RootList(h: Heap, rootgc: seq<Obj>) {
    && NoDup(rootgc)
    && (forall o :: o in rootgc ==> o in h && h[o].tt != STRING && !h[o].body.Slot?)
    && (forall o :: o in h && h[o].tt != STRING && !h[o].body.Slot? ==> o in rootgc)
  }

  function Bucket(hash: Text -> nat, n: nat, s: Text): nat
    requires n > 0
  {
    hash(s) % n
  }

  /** Every string is in the bucket of its hash, and no two have the same bytes. */
  ghost predicate StringTable(h: Heap, strt: seq<seq<Obj>>, hash: Text -> nat) {
    && |strt| > 0
    && (forall b :: 0 <= b < |strt| ==> NoDup(strt[b]))
    && (forall b, o :: 0 <= b < |strt| && o in strt[b] ==>
        o in h && h[o].body.Bytes? && Bucket(hash, |strt|, h[o].body.s) == b)
    && (forall o :: o in h && h[o].body.Bytes? ==> o in strt[Bucket(hash, |strt|, h[o].body.s)])
    && (forall o, p :: o in h && p in h && h[o].body.Bytes? && h[p].body == h[o].body ==> o == p)
  }

  /** How many strings the table holds. */
  function Chained(strt: seq<seq<Obj>>): nat {
    if strt == [] then 0 else |strt[0]| + Chained(strt[1..])
  }

  lemma {:induction false} ChainedUpdate(strt: seq<seq<Obj>>, b: nat, l: seq<Obj>)
    requires b < |strt|
    ensures Chained(strt[b := l]) + |strt[b]| == Chained(strt) + |l|
    decreases |strt|
  {
    if b > 0 {
      ChainedUpdate(strt[1..], b - 1, l);
      assert strt[b := l][1..] == strt[1..][b - 1 := l];
    } else {
      assert strt[b := l][1..] == strt[1..];
    }
  }

  /** The open upvalues of a thread, from the top of its stack downwards. */
  ghost predicate Descending(h: Heap, th: Obj, l: seq<Obj>) {
    && (forall i :: 0 <= i < |l| ==> l[i] in h && h[l[i]].body.Slot? && h[l[i]].body.thread == th)
    && (forall i, j :: 0 <= i < j < |l| ==> h[l[i]].body.index > h[l[j]].body.index)
  }

  ghost predicate OpenLists(h: Heap, openupval: map<Obj, seq<Obj>>, uvhead: seq<Obj>) {
    && (forall th :: th in openupval <==> th in h && h[th].tt == THREAD)
    && (forall th :: th in openupval ==> Descending(h, th, openupval[th]))
    && (forall u :: IsOpen(h, u) ==> h[u].body.thread in openupval && u in openupval[h[u].body.thread])
    && NoDup(uvhead) && (forall u :: u in uvhead <==> IsOpen(h, u))
  }

  /** What sweeping may do: free dead objects that are not fixed, whiten the others, and
      close upvalues in place. What the survivors hold does not change. */
  ghost predicate Swept(h: Heap, m: Marks, h': Heap, m': Marks, cw: Colour, fixed: set<Obj>) {
    && m.Keys == h.Keys && m'.Keys == h'.Keys && h'.Keys <= h.Keys
    && (forall o :: o in h && o !in h' ==> Dead(m[o], cw) && o !in fixed)
    && (forall o :: o in h' ==> m'[o] == m[o] || (m'[o] == cw && (!Dead(m[o], cw) || o in fixed)))
    && (forall o :: o in h' ==> h'[o].tt == h[o].tt && Values(h', o) == Values(h, o))
    && (forall o :: o in h' ==> h'[o] == h[o] || (h[o].body.Slot? && h'[o].body.Fields?))
  }

  lemma SweptTrans(h: Heap, m: Marks, h1: Heap, m1: Marks, h2: Heap, m2: Marks, cw: Colour, fixed: set<Obj>)
    requires Swept(h, m, h1, m1, cw, fixed) && Swept(h1, m1, h2, m2, cw, fixed) && IsWhite(cw)
    ensures Swept(h, m, h2, m2, cw, fixed)
  {
  }

  /** Only objects of one list were touched. */
  ghost predicate OnlyThese(h: Heap, m: Marks, h': Heap, m': Marks, these: set<Obj>) {
    forall o :: o in h' && o in m' ==> o in h && h'[o] == h[o] && (o !in these && o in m ==> m'[o] == m[o])
  }

  lemma SweptRefl(h: Heap, m: Marks, cw: Colour, fixed: set<Obj>)
    requires m.Keys == h.Keys
    ensures Swept(h, m, h, m, cw, fixed)
  {
  }

  // ----- one object -----

  function Without(s: seq<Obj>, o: Obj): seq<Obj> {
    if s == [] then [] else if s[0] == o then s[1..] else [s[0]] + Without(s[1..], o)
  }

  lemma {:induction false} WithoutIs(s: seq<Obj>, o: Obj)
    requires NoDup(s)
    ensures NoDup(Without(s, o)) && forall p :: p in Without(s, o) <==> p in s && p != o
    decreases |s|
  {
    if s != [] {
      assert forall i, j :: 0 <= i < j < |s[1..]| ==> s[1..][i] == s[i + 1] && s[1..][j] == s[j + 1];
      assert s == [s[0]] + s[1..];
      if s[0] == o {
        forall i | 0 <= i < |s[1..]| ensures s[1..][i] != o { assert s[1..][i] == s[i + 1]; }
      } else {
        WithoutIs(s[1..], o);
        var w := Without(s[1..], o);
        forall i | 0 <= i < |w| ensures w[i] != s[0] {
          assert w[i] in s[1..];
          var k :| 0 <= k < |s[1..]| && s[1..][k] == w[i];
          assert s[k + 1] == w[i];
        }
      }
    }
  }

  /** Freeing an object nobody alive refers to. */
  lemma FreeDead(h: Heap, m: Marks, cw: Colour, o: Obj)
    requires Live(h, m, cw) && m.Keys == h.Keys && o in h && Dead(m[o], cw)
    ensures Live(h - {o}, m - {o}, cw)
  {
    var h', m' := h - {o}, m - {o};
    forall x, p | x in m' && !Dead(m'[x], cw) && Edge(h', x, p) ensures p in m' && !Dead(m'[p], cw) {
      assert Edge(h, x, p);
    }
  }

  lemma FreeWF(h: Heap, o: Obj)
    requires WFHeap(h) && o in h && forall u :: IsOpen(h, u) ==> h[u].body.thread != o
    ensures WFHeap(h - {o}) && forall x :: x in h - {o} ==> Values(h - {o}, x) == Values(h, x)
  {
    var h' := h - {o};
    forall x | x in h' ensures WFObject(h', x) && Values(h', x) == Values(h, x) {
      assert WFObject(h, x);
      if h[x].body.Slot? { assert IsOpen(h, x); }
    }
  }

  /** makewhite on a survivor. */
  lemma Whiten(h: Heap, m: Marks, cw: Colour, o: Obj)
    requires Live(h, m, cw) && m.Keys == h.Keys && o in h && IsWhite(cw) && (!Dead(m[o], cw) || Values(h, o) == [])
    ensures Live(h, m[o := cw], cw)
    ensures forall os :: AllLive(os, m, cw) ==> AllLive(os, m[o := cw], cw)
  {
    var m' := m[o := cw];
    forall x, p | x in m' && !Dead(m'[x], cw) && Edge(h, x, p) ensures p in m' && !Dead(m'[p], cw) {
      if x == o { assert Ref(p) in Values(h, o); }
    }
  }

  function RemoveAt(s: seq<Obj>, i: nat): seq<Obj>
    requires i < |s|
  {
    s[..i] + s[i + 1..]
  }

  lemma RemoveAtIs(s: seq<Obj>, i: nat)
    requires NoDup(s) && i < |s|
    ensures NoDup(RemoveAt(s, i)) && |RemoveAt(s, i)| == |s| - 1 && forall p :: p in RemoveAt(s, i) <==>
        p in s && p != s[i]
  {
    var r := RemoveAt(s, i);
    forall a, b | 0 <= a < b < |r| ensures r[a] != r[b] {
      assert r[a] == s[if a < i then a else a + 1] && r[b] == s[if b < i then b else b + 1];
    }
    forall p ensures p in r <==> p in s && p != s[i] {
      if p in r {
        var a :| 0 <= a < |r| && r[a] == p;
        assert r[a] == s[if a < i then a else a + 1];
      }
      if p in s && p != s[i] {
        var a :| 0 <= a < |s| && s[a] == p;
        assert r[if a < i then a else a - 1] == p;
      }
    }
  }

  /** A string leaves the heap and its bucket. */
  lemma DropString(h: Heap, strt: seq<seq<Obj>>, hash: Text -> nat, b: nat, i: nat)
    requires StringTable(h, strt, hash) && b < |strt| && i < |strt[b]|
    ensures strt[b][i] in h && h[strt[b][i]].body.Bytes?
    ensures StringTable(h - {strt[b][i]}, strt[b := RemoveAt(strt[b], i)], hash)
  {
    RemoveAtIs(strt[b], i);
    var o := strt[b][i];
    assert o in strt[b];
    var h', strt' := h - {o}, strt[b := RemoveAt(strt[b], i)];
    forall c, p | 0 <= c < |strt'| && p in strt'[c]
      ensures p in h' && h'[p].body.Bytes? && Bucket(hash, |strt'|, h'[p].body.s) == c
    {
      assert p in strt[c];
    }
    forall p | p in h' && h'[p].body.Bytes? ensures p in strt'[Bucket(hash, |strt'|, h'[p].body.s)] {
      assert p in strt[Bucket(hash, |strt|, h[p].body.s)];
    }
  }

  /** ... and is in no other list. */
  lemma DropFromHeap(h: Heap, o: Obj, rootgc: seq<Obj>, openupval: map<Obj, seq<Obj>>, uvhead: seq<Obj>)
    requires o in h && h[o].body.Bytes? && WFHeap(h)
    requires RootList(h, rootgc) && OpenLists(h, openupval, uvhead)
    ensures RootList(h - {o}, rootgc) && OpenLists(h - {o}, openupval, uvhead)
    ensures forall u :: IsOpen(h, u) ==> h[u].body.thread != o
  {
    assert WFObject(h, o);
    var h' := h - {o};
    forall u | IsOpen(h, u) ensures h[u].body.thread != o {
      assert WFObject(h, u);
    }
    assert forall u :: IsOpen(h', u) <==> IsOpen(h, u);
    forall th | th in openupval ensures Descending(h', th, openupval[th]) {
      assert Descending(h, th, openupval[th]);
    }
  }

  /** An open upvalue leaves the heap, its thread and the list of all open upvalues. */
  lemma DropUpval(h: Heap, openupval: map<Obj, seq<Obj>>, uvhead: seq<Obj>, th: Obj, i: nat)
    requires OpenLists(h, openupval, uvhead) && WFHeap(h) && th in openupval && i < |openupval[th]|
    ensures var u := openupval[th][i];
            && IsOpen(h, u) && h[u].tt == UPVAL
            && OpenLists(h - {u}, openupval[th := RemoveAt(openupval[th], i)], Without(uvhead, u))
            && forall v :: IsOpen(h, v) ==> h[v].body.thread != u
  {
    var l := openupval[th];
    var u := l[i];
    var h', o', uv' := h - {u}, openupval[th := RemoveAt(l, i)], Without(uvhead, u);
    assert Descending(h, th, l);
    assert WFObject(h, u);
    WithoutIs(uvhead, u);
    DescendingNoDup(h, th, l);
    RemoveAtIs(l, i);
    forall v | IsOpen(h, v) ensures h[v].body.thread != u { assert WFObject(h, v); }
    forall t | t in o' ensures Descending(h', t, o'[t]) {
      assert Descending(h, t, openupval[t]);
      if t == th {
        forall a | 0 <= a < |o'[t]| ensures o'[t][a] == l[if a < i then a else a + 1] {}
      } else {
        forall a | 0 <= a < |o'[t]| ensures o'[t][a] != u { assert h[o'[t][a]].body.thread == t; }
      }
    }
    forall v | IsOpen(h', v) ensures h'[v].body.thread in o' && v in o'[h'[v].body.thread] {
      assert IsOpen(h, v);
    }
    forall v ensures v in uv' <==> IsOpen(h', v) {
      assert v in uvhead <==> IsOpen(h, v);
    }
  }

  lemma DescendingNoDup(h: Heap, th: Obj, l: seq<Obj>)
    requires Descending(h, th, l)
    ensures NoDup(l)
  {
  }

  /** The other lists, when an object that is in neither of them leaves the heap. */
  lemma DropOther(h: Heap, o: Obj, rootgc: seq<Obj>, strt: seq<seq<Obj>>, hash: Text -> nat)
    requires RootList(h, rootgc) && StringTable(h, strt, hash) && IsOpen(h, o)
    ensures RootList(h - {o}, rootgc) && StringTable(h - {o}, strt, hash)
  {
  }

  // ----- closing -----

  function Closed(h: Heap, u: Obj): Shape
    requires u in h
  {
    Shape(UPVAL, Fields(Values(h, u)))
  }

  /** Closing an upvalue copies the value of its slot. */
  lemma CloseHeap(h: Heap, u: Obj)
    requires WFHeap(h) && IsOpen(h, u)
    ensures WFHeap(h[u := Closed(h, u)]) && |Values(h, u)| == 1
    ensures forall x :: x in h ==> Values(h[u := Closed(h, u)], x) == Values(h, x)
    ensures forall x, p :: Edge(h[u := Closed(h, u)], x, p) <==> Edge(h, x, p)
  {
    var h' := h[u := Closed(h, u)];
    assert WFObject(h, u);
    forall x | x in h ensures WFObject(h', x) && Values(h', x) == Values(h, x) {
      assert WFObject(h, x);
      if h[x].body.Slot? { assert h[x].body.thread != u; }
    }
  }

  lemma CloseLists(h: Heap, rootgc: seq<Obj>, strt: seq<seq<Obj>>, hash: Text -> nat, openupval: map<Obj, seq<Obj>>,
      uvhead: seq<Obj>, th: Obj)
    requires RootList(h, rootgc) && StringTable(h, strt, hash) && OpenLists(h, openupval, uvhead) && WFHeap(h)
    requires th in openupval && openupval[th] != []
    ensures var u := openupval[th][0];
            var h' := h[u := Closed(h, u)];
            && IsOpen(h, u)
            && RootList(h', [u] + rootgc) && StringTable(h', strt, hash)
            && OpenLists(h', openupval[th := openupval[th][1..]], Without(uvhead, u))
  {
    var u := openupval[th][0];
    assert Descending(h, th, openupval[th]);
    CloseHeap(h, u);
    CloseOpenLists(h, openupval, uvhead, th);
    var h' := h[u := Closed(h, u)];
    assert WFObject(h, u);
    var r := [u] + rootgc;
    forall i, j | 0 <= i < j < |r| ensures r[i] != r[j] {
      assert r[j] == rootgc[j - 1] && rootgc[j - 1] in rootgc;
    }
  }

  lemma CloseOpenLists(h: Heap, openupval: map<Obj, seq<Obj>>, uvhead: seq<Obj>, th: Obj)
    requires OpenLists(h, openupval, uvhead) && WFHeap(h) && th in openupval && openupval[th] != []
    ensures var u := openupval[th][0];
            IsOpen(h, u) && OpenLists(h[u := Closed(h, u)], openupval[th := openupval[th][1..]], Without(uvhead, u))
  {
    var l := openupval[th];
    var u := l[0];
    assert Descending(h, th, l);
    assert WFObject(h, u);
    var h', o', uv' := h[u := Closed(h, u)], openupval[th := l[1..]], Without(uvhead, u);
    WithoutIs(uvhead, u);
    DescendingNoDup(h, th, l);
    forall t | t in o' ensures Descending(h', t, o'[t]) {
      assert Descending(h, t, openupval[t]);
      if t == th {
        forall a | 0 <= a < |l[1..]| ensures l[1..][a] == l[a + 1] && l[a + 1] != u {}
      } else {
        forall a | 0 <= a < |o'[t]| ensures o'[t][a] != u { assert h[o'[t][a]].body.thread == t; }
      }
    }
    forall v | IsOpen(h', v) ensures h'[v].body.thread in o' && v in o'[h'[v].body.thread] {
      assert IsOpen(h, v) && v != u;
      if h[v].body.thread == th { assert v in l && v != l[0]; }
    }
    forall v ensures v in uv' <==> IsOpen(h', v) {
      assert v in uvhead <==> IsOpen(h, v);
    }
  }

  // ----- how far the sweep has got -----

  /** The first k objects of the root list, and their open upvalues, have been swept. */
  ghost predicate RootSwept(m: Marks, cw: Colour, rootgc: seq<Obj>, openupval: map<Obj, seq<Obj>>, k: nat) {
    && k <= |rootgc|
    && forall i :: 0 <= i < k ==>
         && rootgc[i] in m && m[rootgc[i]] == cw
         && (rootgc[i] in openupval ==> forall u :: u in openupval[rootgc[i]] ==> u in m && m[u] == cw)
  }

  ghost predicate StringsSwept(m: Marks, cw: Colour, strt: seq<seq<Obj>>, k: nat) {
    k <= |strt| && forall b, o :: 0 <= b < k && o in strt[b] ==> o in m && m[o] == cw
  }

  lemma {:induction false} WithoutPrefix(s: seq<Obj>, o: Obj, j: nat, k: nat)
    requires NoDup(s) && k <= j < |s| && s[j] == o
    ensures |Without(s, o)| == |s| - 1 && Without(s, o)[..k] == s[..k]
    decreases |s|
  {
    if j > 0 {
      assert s[0] != o;
      assert forall a, b :: 0 <= a < b < |s[1..]| ==> s[1..][a] == s[a + 1] && s[1..][b] == s[b + 1];
      WithoutPrefix(s[1..], o, j - 1, if k == 0 then 0 else k - 1);
      var w := Without(s[1..], o);
      if k > 0 {
        assert ([s[0]] + w)[..k] == [s[0]] + w[..k - 1] == [s[0]] + s[1..][..k - 1] == s[..k];
      }
    }
  }

  /** When everything has been swept, every object has the current white. */
  lemma AllSwept(h: Heap, m: Marks, cw: Colour, rootgc: seq<Obj>, strt: seq<seq<Obj>>, hash: Text -> nat,
      openupval: map<Obj, seq<Obj>>, uvhead: seq<Obj>)
    requires RootList(h, rootgc) && StringTable(h, strt, hash) && OpenLists(h, openupval, uvhead) && WFHeap(h)
        && m.Keys == h.Keys
    requires RootSwept(m, cw, rootgc, openupval, |rootgc|)
    requires forall o :: o in h && h[o].body.Bytes? ==> m[o] == cw
    ensures AllCurrent(m, cw)
  {
    forall o | o in m ensures m[o] == cw {
      assert WFObject(h, o);
      if h[o].body.Slot? {
        var th := h[o].body.thread;
        assert IsOpen(h, o);
        assert WFObject(h, th);
        assert th in rootgc;
        var i :| 0 <= i < |rootgc| && rootgc[i] == th;
      } else if h[o].tt != STRING {
        var i :| 0 <= i < |rootgc| && rootgc[i] == o;
      }
    }
  }

  /** Only strings and the main thread are fixed. */
  ghost predicate FixedOk(h: Heap, fixed: set<Obj>, mainthread: Obj) {
    forall o :: o in fixed ==> o in h && (h[o].body.Bytes? || o == mainthread)
  }

  lemma SweepOne(h: Heap, m: Marks, cw: Colour, fixed: set<Obj>, o: Obj)
    requires m.Keys == h.Keys && o in h && (!Dead(m[o], cw) || o in fixed)
    ensures Swept(h, m, h, m[o := cw], cw, fixed)
  {
  }

  lemma SweepFree(h: Heap, m: Marks, cw: Colour, fixed: set<Obj>, o: Obj)
    requires m.Keys == h.Keys && o in h && Dead(m[o], cw) && o !in fixed
    requires forall x :: x in h - {o} ==> Values(h - {o}, x) == Values(h, x)
    ensures Swept(h, m, h - {o}, m - {o}, cw, fixed)
  {
  }

  lemma RootsStay(h: Heap, m: Marks, cw: Colour, fixed: set<Obj>, mainthread: Obj, roots: set<Obj>, o: Obj)
    requires AllLive(roots, m, cw) && o in m && Dead(m[o], cw) && o !in fixed && FixedOk(h, fixed, mainthread)
        && mainthread in roots
    ensures AllLive(roots, m - {o}, cw) && FixedOk(h - {o}, fixed, mainthread) && o != mainthread
  {
  }

  lemma OnlyMore(h0: Heap, m0: Marks, h: Heap, m: Marks, h': Heap, m': Marks, these: set<Obj>, o: Obj)
    requires OnlyThese(h0, m0, h, m, these) && o in these && h.Keys == m.Keys
    requires (h' == h && o in m' && m' == m[o := m'[o]]) || (h' == h - {o} && m' == m - {o})
    ensures OnlyThese(h0, m0, h', m', these)
  {
  }

  lemma NotFixed(h: Heap, fixed: set<Obj>, mainthread: Obj, u: Obj)
    requires FixedOk(h, fixed, mainthread) && IsOpen(h, u) && mainthread in h && h[mainthread].tt == THREAD && WFHeap(h)
    ensures u !in fixed
  {
    assert WFObject(h, u);
  }

  lemma WithoutShorter(h: Heap, openupval: map<Obj, seq<Obj>>, uvhead: seq<Obj>, u: Obj)
    requires OpenLists(h, openupval, uvhead) && IsOpen(h, u)
    ensures |Without(uvhead, u)| == |uvhead| - 1
  {
    assert u in uvhead;
    var j :| 0 <= j < |uvhead| && uvhead[j] == u;
    WithoutPrefix(uvhead, u, j, 0);
  }

  lemma CloseAlive(h: Heap, m: Marks, cw: Colour, fixed: set<Obj>, mainthread: Obj, u: Obj)
    requires Live(h, m, cw) && WFHeap(h) && IsOpen(h, u) && m.Keys == h.Keys && FixedOk(h, fixed, mainthread)
    requires mainthread in h && h[mainthread].tt == THREAD
    ensures var h' := h[u := Closed(h, u)];
            Live(h', m, cw) && FixedOk(h', fixed, mainthread) && h'[mainthread].tt == THREAD && u != mainthread
  {
    assert WFObject(h, u);
    CloseHeap(h, u);
    var h' := h[u := Closed(h, u)];
    assert h'[mainthread] == h[mainthread];
    forall o, p | o in m && !Dead(m[o], cw) && Edge(h', o, p) ensures p in m && !Dead(m[p], cw) {
      assert Edge(h, o, p);
    }
  }

  lemma BucketNoDup(h: Heap, strt: seq<seq<Obj>>, hash: Text -> nat, b: nat)
    requires StringTable(h, strt, hash) && b < |strt|
    ensures NoDup(strt[b])
  {
  }

  lemma OpenNoDup(h: Heap, openupval: map<Obj, seq<Obj>>, uvhead: seq<Obj>, th: Obj)
    requires OpenLists(h, openupval, uvhead) && th in openupval
    ensures NoDup(openupval[th])
  {
    DescendingNoDup(h, th, openupval[th]);
  }

  // ----- the collector's state -----

  /** Every object is in the list it belongs to. */
  ghost predicate Lists(h: Heap, rootgc: seq<Obj>, strt: seq<seq<Obj>>, hash: Text -> nat,
      openupval: map<Obj, seq<Obj>>, uvhead: seq<Obj>) {
    RootList(h, rootgc) && StringTable(h, strt, hash) && OpenLists(h, openupval, uvhead)
  }

  /** What is not dead is closed under references and contains the roots. */
  ghost predicate LiveState(h: Heap, m: Marks, cw: Colour, fixed: set<Obj>, mainthread: Obj, roots: set<Obj>) {
    && m.Keys == h.Keys && WFHeap(h) && IsWhite(cw)
    && Live(h, m, cw) && AllLive(roots, m, cw)
    && mainthread in h && h[mainthread].tt == THREAD && mainthread in roots
    && FixedOk(h, fixed, mainthread)
  }

  lemma KeepOk(h: Heap, m: Marks, cw: Colour, fixed: set<Obj>, mainthread: Obj, roots: set<Obj>, o: Obj)
    requires LiveState(h, m, cw, fixed, mainthread, roots) && o in h
    requires m[o] != OtherWhite(cw) || (o in fixed && o != mainthread)
    ensures LiveState(h, m[o := cw], cw, fixed, mainthread, roots) && Swept(h, m, h, m[o := cw], cw, fixed)
  {
    Whiten(h, m, cw, o);
    SweepOne(h, m, cw, fixed, o);
  }

  lemma FreeOk(h: Heap, m: Marks, cw: Colour, fixed: set<Obj>, mainthread: Obj, roots: set<Obj>, o: Obj)
    requires LiveState(h, m, cw, fixed, mainthread, roots) && o in h && m[o] == OtherWhite(cw) && o !in fixed
    requires forall u :: IsOpen(h, u) ==> h[u].body.thread != o
    ensures LiveState(h - {o}, m - {o}, cw, fixed, mainthread, roots) && Swept(h, m, h - {o}, m - {o}, cw, fixed)
  {
    hide Live, WFHeap, AllLive, FixedOk, Swept;
    FreeDead(h, m, cw, o);
    FreeWF(h, o);
    RootsStay(h, m, cw, fixed, mainthread, roots, o);
    SweepFree(h, m, cw, fixed, o);
  }

  lemma FreeStringOk(h: Heap, m: Marks, cw: Colour, fixed: set<Obj>, mainthread: Obj, roots: set<Obj>,
      rootgc: seq<Obj>, strt: seq<seq<Obj>>, hash: Text -> nat, ou: map<Obj, seq<Obj>>, uv: seq<Obj>, b: nat, i: nat)
    requires Lists(h, rootgc, strt, hash, ou, uv) && LiveState(h, m, cw, fixed, mainthread, roots)
    requires b < |strt| && i < |strt[b]|
    ensures strt[b][i] in h && h[strt[b][i]].body.Bytes? && NoDup(strt[b])
    ensures m[strt[b][i]] == OtherWhite(cw) && strt[b][i] !in fixed ==>
              var o := strt[b][i];
              && Lists(h - {o}, rootgc, strt[b := RemoveAt(strt[b], i)], hash, ou, uv)
              && LiveState(h - {o}, m - {o}, cw, fixed, mainthread, roots) && Swept(h, m, h - {o}, m - {o}, cw, fixed)
  {
    hide Live, WFHeap, AllLive, FixedOk, Swept, RootList, OpenLists, LiveState;
    var o := strt[b][i];
    DropString(h, strt, hash, b, i);
    BucketNoDup(h, strt, hash, b);
    StateWF(h, m, cw, fixed, mainthread, roots);
    if m[o] == OtherWhite(cw) && o !in fixed {
      DropFromHeap(h, o, rootgc, ou, uv);
      FreeOk(h, m, cw, fixed, mainthread, roots, o);
    }
  }

  lemma StateWF(h: Heap, m: Marks, cw: Colour, fixed: set<Obj>, mainthread: Obj, roots: set<Obj>)
    requires LiveState(h, m, cw, fixed, mainthread, roots)
    ensures WFHeap(h) && m.Keys == h.Keys && IsWhite(cw) && FixedOk(h, fixed, mainthread) && Live(h, m, cw)
        && AllLive(roots, m, cw)
    ensures mainthread in h && h[mainthread].tt == THREAD
  {
  }

  lemma FreeUpvalOk(h: Heap, m: Marks, cw: Colour, fixed: set<Obj>, mainthread: Obj, roots: set<Obj>, rootgc: seq<Obj>,
      strt: seq<seq<Obj>>, hash: Text -> nat, ou: map<Obj, seq<Obj>>, uv: seq<Obj>, th: Obj, i: nat)
    requires Lists(h, rootgc, strt, hash, ou, uv) && LiveState(h, m, cw, fixed, mainthread, roots)
    requires th in ou && i < |ou[th]|
    ensures ou[th][i] in h && IsOpen(h, ou[th][i]) && NoDup(ou[th]) && ou[th][i] != mainthread && ou[th][i] !in fixed
    ensures |Without(uv, ou[th][i])| == |uv| - 1
    ensures m[ou[th][i]] == OtherWhite(cw) ==>
              var o := ou[th][i];
              && Lists(h - {o}, rootgc, strt, hash, ou[th := RemoveAt(ou[th], i)], Without(uv, o))
              && LiveState(h - {o}, m - {o}, cw, fixed, mainthread, roots) && Swept(h, m, h - {o}, m - {o}, cw, fixed)
  {
    hide Live, WFHeap, AllLive, FixedOk, Swept, RootList, StringTable, OpenLists, LiveState;
    var o := ou[th][i];
    StateWF(h, m, cw, fixed, mainthread, roots);
    DropUpval(h, ou, uv, th, i);
    OpenNoDup(h, ou, uv, th);
    WithoutShorter(h, ou, uv, o);
    NotFixed(h, fixed, mainthread, o);
    DropOther(h, o, rootgc, strt, hash);
    if m[o] == OtherWhite(cw) {
      FreeOk(h, m, cw, fixed, mainthread, roots, o);
    }
  }

  lemma CloseOk(h: Heap, m: Marks, cw: Colour, fixed: set<Obj>, mainthread: Obj, roots: set<Obj>, rootgc: seq<Obj>,
      strt: seq<seq<Obj>>, hash: Text -> nat, ou: map<Obj, seq<Obj>>, uv: seq<Obj>, th: Obj)
    requires Lists(h, rootgc, strt, hash, ou, uv) && LiveState(h, m, cw, fixed, mainthread, roots)
    requires th in ou && ou[th] != []
    ensures IsOpen(h, ou[th][0]) && |Without(uv, ou[th][0])| == |uv| - 1
    ensures var u := ou[th][0];
            var h' := h[u := Closed(h, u)];
            && Lists(h', [u] + rootgc, strt, hash, ou[th := ou[th][1..]], Without(uv, u))
            && LiveState(h', m, cw, fixed, mainthread, roots)
            && (forall x :: x in h ==> Values(h', x) == Values(h, x))
            && (forall x, p :: Edge(h', x, p) <==> Edge(h, x, p))
  {
    hide Live, WFHeap, AllLive, FixedOk, RootList, StringTable, OpenLists, Closed;
    CloseLists(h, rootgc, strt, hash, ou, uv, th);
    CloseHeap(h, ou[th][0]);
    CloseAlive(h, m, cw, fixed, mainthread, ou[th][0]);
    WithoutShorter(h, ou, uv, ou[th][0]);
  }

  ghost predicate PrefixCurrent(m: Marks, cw: Colour, l: seq<Obj>, n: nat) {
    n <= |l| && forall j :: 0 <= j < n ==> l[j] in m && m[l[j]] == cw
  }

  lemma PrefixKept(m: Marks, cw: Colour, l: seq<Obj>, i: nat)
    requires PrefixCurrent(m, cw, l, i) && i < |l|
    ensures PrefixCurrent(m[l[i] := cw], cw, l, i + 1)
  {
  }

  lemma PrefixFreed(m: Marks, cw: Colour, l: seq<Obj>, i: nat)
    requires PrefixCurrent(m, cw, l, i) && i < |l| && NoDup(l)
    ensures PrefixCurrent(m - {l[i]}, cw, RemoveAt(l, i), i)
  {
    forall j | 0 <= j < i ensures RemoveAt(l, i)[j] == l[j] && l[j] != l[i] {}
  }

  lemma SweepStart(h: Heap, m: Marks, cw: Colour, fixed: set<Obj>, mainthread: Obj, roots: set<Obj>, l: seq<Obj>)
    requires LiveState(h, m, cw, fixed, mainthread, roots)
    ensures Swept(h, m, h, m, cw, fixed) && OnlyThese(h, m, h, m, Elems(l)) && PrefixCurrent(m, cw, l, 0)
  {
  }

  lemma BucketDistinct(h: Heap, rootgc: seq<Obj>, strt: seq<seq<Obj>>, hash: Text -> nat, ou: map<Obj, seq<Obj>>,
      uv: seq<Obj>, b: nat)
    requires Lists(h, rootgc, strt, hash, ou, uv) && b < |strt|
    ensures NoDup(strt[b])
  {
  }

  lemma OpenDistinct(h: Heap, rootgc: seq<Obj>, strt: seq<seq<Obj>>, hash: Text -> nat, ou: map<Obj, seq<Obj>>,
      uv: seq<Obj>, th: Obj)
    requires Lists(h, rootgc, strt, hash, ou, uv) && th in ou
    ensures NoDup(ou[th])
  {
    OpenNoDup(h, ou, uv, th);
  }

  /** One turn of the sweep of a list. */
  lemma SweepTurn(h0: Heap, m0: Marks, h: Heap, m: Marks, h': Heap, m': Marks, cw: Colour, fixed: set<Obj>,
      these: set<Obj>, l: seq<Obj>, i: nat, kept: bool)
    requires Swept(h0, m0, h, m, cw, fixed) && Swept(h, m, h', m', cw, fixed) && IsWhite(cw) && h.Keys == m.Keys
    requires OnlyThese(h0, m0, h, m, these) && Elems(l) <= these && i < |l| && NoDup(l) && PrefixCurrent(m, cw, l, i)
    requires if kept then h' == h && l[i] in m && m' == m[l[i] := cw] else h' == h - {l[i]} && m' == m - {l[i]}
    ensures Swept(h0, m0, h', m', cw, fixed) && OnlyThese(h0, m0, h', m', these)
    ensures |RemoveAt(l, i)| == |l| - 1 && Elems(RemoveAt(l, i)) <= these
    ensures if kept then PrefixCurrent(m', cw, l, i + 1) else PrefixCurrent(m', cw, RemoveAt(l, i), i)
    ensures h.Keys <= h'.Keys + these
  {
    hide Swept, OnlyThese, PrefixCurrent;
    assert l[i] in Elems(l);
    SweptTrans(h0, m0, h, m, h', m', cw, fixed);
    OnlyMore(h0, m0, h, m, h', m', these, l[i]);
    RemoveAtIs(l, i);
    if kept { PrefixKept(m, cw, l, i); } else { PrefixFreed(m, cw, l, i); }
  }

  /** An open upvalue is marked, at most, gray: its value may still change without notice. */
  ghost predicate OpenNotBlack(h: Heap, m: Marks) {
    forall u :: IsOpen(h, u) && u in m ==> !m[u].Black?
  }

  lemma SweptNotBlack(h: Heap, m: Marks, h': Heap, m': Marks, cw: Colour, fixed: set<Obj>)
    requires Swept(h, m, h', m', cw, fixed) && IsWhite(cw) && OpenNotBlack(h, m)
    ensures OpenNotBlack(h', m')
  {
    forall u | IsOpen(h', u) && u in m' ensures !m'[u].Black? {
      assert IsOpen(h, u);
    }
  }

  ghost predicate StringsCurrent(h: Heap, m: Marks, cw: Colour) {
    forall o :: o in h && o in m && h[o].body.Bytes? ==> m[o] == cw
  }

  /** What has been swept stays so. */
  lemma SweptCurrent(h: Heap, m: Marks, h': Heap, m': Marks, cw: Colour, fixed: set<Obj>)
    requires Swept(h, m, h', m', cw, fixed) && IsWhite(cw)
    ensures forall o :: o in h && m[o] == cw ==> o in h' && m'[o] == cw
    ensures StringsCurrent(h, m, cw) ==> StringsCurrent(h', m', cw)
  {
  }

  lemma RootStays(h: Heap, m: Marks, h': Heap, m': Marks, cw: Colour, fixed: set<Obj>, rootgc: seq<Obj>, ou: map<Obj,
      seq<Obj>>, ou': map<Obj, seq<Obj>>, k: nat)
    requires Swept(h, m, h', m', cw, fixed) && IsWhite(cw) && RootSwept(m, cw, rootgc, ou, k)
    requires forall i :: 0 <= i < k && rootgc[i] in ou' ==> rootgc[i] in ou && ou'[rootgc[i]] == ou[rootgc[i]]
    ensures RootSwept(m', cw, rootgc, ou', k)
  {
    SweptCurrent(h, m, h', m', cw, fixed);
  }

  /** The object at the sweep position survives. */
  lemma RootKept(h: Heap, m: Marks, cw: Colour, fixed: set<Obj>, rootgc: seq<Obj>, ou: map<Obj, seq<Obj>>, k: nat)
    requires RootSwept(m, cw, rootgc, ou, k) && k < |rootgc| && rootgc[k] in m && IsWhite(cw)
    requires rootgc[k] in ou ==> PrefixCurrent(m, cw, ou[rootgc[k]], |ou[rootgc[k]]|)
    ensures RootSwept(m[rootgc[k] := cw], cw, rootgc, ou, k + 1)
  {
  }

  /** An object leaves the heap and the root list. */
  lemma FreeRootOk(h: Heap, m: Marks, cw: Colour, fixed: set<Obj>, mainthread: Obj, roots: set<Obj>, rootgc: seq<Obj>,
      strt: seq<seq<Obj>>, hash: Text -> nat, ou: map<Obj, seq<Obj>>, uv: seq<Obj>, o: Obj)
    requires Lists(h, rootgc, strt, hash, ou, uv) && LiveState(h, m, cw, fixed, mainthread, roots)
    requires o in rootgc && o in m && m[o] == OtherWhite(cw) && o !in fixed && (o in ou ==> ou[o] == [])
    ensures Lists(h - {o}, Without(rootgc, o), strt, hash, ou - {o}, uv)
    ensures LiveState(h - {o}, m - {o}, cw, fixed, mainthread, roots) && Swept(h, m, h - {o}, m - {o}, cw, fixed)
  {
    hide Live, AllLive, FixedOk, Swept;
    StateWF(h, m, cw, fixed, mainthread, roots);
    WithoutIs(rootgc, o);
    forall u | IsOpen(h, u) ensures h[u].body.thread != o {
      assert u in ou[h[u].body.thread];
    }
    FreeOk(h, m, cw, fixed, mainthread, roots, o);
    hide LiveState, WFHeap;
    FreeRootLists(h, rootgc, strt, hash, ou, uv, o);
  }

  lemma FreeRootLists(h: Heap, rootgc: seq<Obj>, strt: seq<seq<Obj>>, hash: Text -> nat, ou: map<Obj, seq<Obj>>,
      uv: seq<Obj>, o: Obj)
    requires Lists(h, rootgc, strt, hash, ou, uv) && o in rootgc && (forall u :: IsOpen(h, u) ==> h[u].body.thread != o)
        && WFHeap(h)
    ensures Lists(h - {o}, Without(rootgc, o), strt, hash, ou - {o}, uv)
  {
    hide RootList, StringTable, OpenLists;
    RootNoString(h, rootgc, o);
    FreeRootStrings(h, strt, hash, o);
    FreeRootRoot(h, rootgc, o);
    FreeRootOpen(h, ou, uv, o);
  }

  lemma RootNoString(h: Heap, rootgc: seq<Obj>, o: Obj)
    requires RootList(h, rootgc) && o in rootgc && WFHeap(h)
    ensures o in h && !h[o].body.Bytes? && !h[o].body.Slot?
  {
    assert WFObject(h, o);
  }

  lemma FreeRootStrings(h: Heap, strt: seq<seq<Obj>>, hash: Text -> nat, o: Obj)
    requires StringTable(h, strt, hash) && o in h && !h[o].body.Bytes?
    ensures StringTable(h - {o}, strt, hash)
  {
  }

  lemma FreeRootRoot(h: Heap, rootgc: seq<Obj>, o: Obj)
    requires RootList(h, rootgc) && o in rootgc
    ensures RootList(h - {o}, Without(rootgc, o))
  {
    WithoutIs(rootgc, o);
  }

  lemma FreeRootOpen(h: Heap, ou: map<Obj, seq<Obj>>, uv: seq<Obj>, o: Obj)
    requires OpenLists(h, ou, uv) && o in h && !h[o].body.Slot? && (forall u :: IsOpen(h, u) ==> h[u].body.thread != o)
    ensures OpenLists(h - {o}, ou - {o}, uv)
  {
    var h' := h - {o};
    forall th | th in ou - {o} ensures Descending(h', th, ou[th]) {
      assert Descending(h, th, ou[th]);
    }
    assert forall u :: IsOpen(h', u) <==> IsOpen(h, u);
  }

  lemma FreedPrefix(m: Marks, cw: Colour, rootgc: seq<Obj>, ou: map<Obj, seq<Obj>>, k: nat, o: Obj, j: nat)
    requires RootSwept(m, cw, rootgc, ou, k) && NoDup(rootgc) && k <= j < |rootgc| && rootgc[j] == o && IsWhite(cw)
        && o in m && m[o] != cw
    ensures RootSwept(m - {o}, cw, Without(rootgc, o), ou - {o}, k) && |Without(rootgc, o)| == |rootgc| - 1
  {
    WithoutPrefix(rootgc, o, j, k);
    var w := Without(rootgc, o);
    forall i | 0 <= i < k ensures w[i] == rootgc[i] && rootgc[i] != o {
      assert w[i] == w[..k][i] == rootgc[..k][i];
    }
  }

  /** An upvalue closed during the sweep joins the swept part, unless that is empty. */
  lemma LinkedPrefix(m: Marks, cw: Colour, rootgc: seq<Obj>, ou: map<Obj, seq<Obj>>, k: nat, th: Obj, u: Obj)
    requires RootSwept(m, cw, rootgc, ou, k) && u in m && m[u] == cw && u !in ou && th in ou && ou[th] != []
    ensures RootSwept(m, cw, [u] + rootgc, ou[th := ou[th][1..]], if k > 0 then k + 1 else 0)
  {
    var r, ou' := [u] + rootgc, ou[th := ou[th][1..]];
    forall i | 0 <= i < (if k > 0 then k + 1 else 0)
      ensures r[i] in m && m[r[i]] == cw
      ensures r[i] in ou' ==> forall v :: v in ou'[r[i]] ==> v in m && m[v] == cw
    {
      if i > 0 {
        assert r[i] == rootgc[i - 1];
        if r[i] in ou' {
          forall v | v in ou'[r[i]] ensures v in m && m[v] == cw {
            assert v in ou[r[i]];
          }
        }
      }
    }
  }

  lemma ClosedSwept(h: Heap, m: Marks, u: Obj, cw: Colour, fixed: set<Obj>)
    requires m.Keys == h.Keys && IsOpen(h, u) && WFHeap(h)
    requires forall x :: x in h ==> Values(h[u := Closed(h, u)], x) == Values(h, x)
    ensures Swept(h, m, h[u := Closed(h, u)], m, cw, fixed)
  {
    assert WFObject(h, u);
  }

  // ----- sweeping and reachability -----

  lemma {:induction false} PathSwept(h: Heap, m: Marks, h': Heap, m': Marks, cw: Colour, fixed: set<Obj>, p: seq<Obj>,
      n: nat)
    requires Swept(h, m, h', m', cw, fixed) && Live(h, m, cw) && Path(h, p) && n < |p| && p[0] in m
        && !Dead(m[p[0]], cw)
    ensures p[n] in m && !Dead(m[p[n]], cw) && p[n] in h'
    decreases n
  {
    if n > 0 {
      PathSwept(h, m, h', m', cw, fixed, p, n - 1);
      assert Edge(h, p[n - 1], p[n - 1 + 1]);
    }
  }

  /** Sweeping does not change what the roots reach. */
  lemma ReachSwept(h: Heap, m: Marks, h': Heap, m': Marks, cw: Colour, fixed: set<Obj>, roots: set<Obj>, o: Obj)
    requires Swept(h, m, h', m', cw, fixed) && Live(h, m, cw) && AllLive(roots, m, cw)
    ensures Reach(h', roots, o) <==> Reach(h, roots, o)
  {
    if Reach(h, roots, o) {
      var p :| Leads(h, roots, p, o);
      forall i | 0 <= i < |p| - 1 ensures Edge(h', p[i], p[i + 1]) {
        PathSwept(h, m, h', m', cw, fixed, p, i);
        assert Edge(h, p[i], p[i + 1]);
      }
      assert Leads(h', roots, p, o);
    }
    if Reach(h', roots, o) {
      var p :| Leads(h', roots, p, o);
      forall i | 0 <= i < |p| - 1 ensures Edge(h, p[i], p[i + 1]) {
        assert Edge(h', p[i], p[i + 1]);
      }
      assert Leads(h, roots, p, o);
    }
  }

  /** A sweep that starts while nothing is dead frees nothing. */
  lemma NothingFreed(h: Heap, m: Marks, h': Heap, m': Marks, cw: Colour, fixed: set<Obj>)
    requires Swept(h, m, h', m', cw, fixed) && NoneDead(m, cw)
    ensures h'.Keys == h.Keys
  {
  }

  /** A complete sweep frees exactly what is dead and not fixed. */
  lemma ExactlyFreed(h: Heap, m: Marks, h': Heap, m': Marks, cw: Colour, fixed: set<Obj>, o: Obj)
    requires Swept(h, m, h', m', cw, fixed) && AllCurrent(m', cw) && IsWhite(cw) && o in h
    ensures o in h' <==> !Dead(m[o], cw) || o in fixed
  {
  }

  lemma OneMoreBucket(h: Heap, m: Marks, h': Heap, m': Marks, cw: Colour, fixed: set<Obj>, strt: seq<seq<Obj>>,
      strt': seq<seq<Obj>>, b: nat)
    requires Swept(h, m, h', m', cw, fixed) && IsWhite(cw) && StringsSwept(m, cw, strt, b) && b < |strt|
    requires |strt'| == |strt| && strt' == strt[b := strt'[b]] && PrefixCurrent(m', cw, strt'[b], |strt'[b]|)
    ensures StringsSwept(m', cw, strt', b + 1)
  {
    SweptCurrent(h, m, h', m', cw, fixed);
    forall c, o | 0 <= c < b + 1 && o in strt'[c] ensures o in m' && m'[o] == cw {
      if c == b {
        var j :| 0 <= j < |strt'[b]| && strt'[b][j] == o;
      } else {
        assert o in strt[c];
      }
    }
  }

  lemma AllBuckets(h: Heap, m: Marks, cw: Colour, strt: seq<seq<Obj>>, hash: Text -> nat)
    requires StringTable(h, strt, hash) && StringsSwept(m, cw, strt, |strt|)
    ensures StringsCurrent(h, m, cw)
  {
    forall o | o in h && o in m && h[o].body.Bytes? ensures m[o] == cw {
      assert o in strt[Bucket(hash, |strt|, h[o].body.s)];
    }
  }
}
