/** Growing and shrinking the string table (lstring.c). */
module StringTables {
  import opened Common
  import opened GcHeap
  import opened GcLists

  const MINSTRTABSIZE: nat := 32

  /** t holds exactly the strings s, each in the bucket of its hash. */
  ghost predicate Rehashed(h: Heap, t: seq<seq<Obj>>, hash: Text -> nat, s: seq<Obj>) {
    && |t| > 0 && Chained(t) == |s|
    && (forall b :: 0 <= b < |t| ==> NoDup(t[b]))
    && (forall b, o :: 0 <= b < |t| && o in t[b] ==> o in s)
    && (forall o :: o in s ==> o in h && h[o].body.Bytes?)
    && (forall b, o :: 0 <= b < |t| && o in t[b] ==> Bucket(hash, |t|, h[o].body.s) == b)
    && (forall o :: o in s ==> o in t[Bucket(hash, |t|, h[o].body.s)])
  }

  predicate InFirst(strt: seq<seq<Obj>>, o: Obj, i: nat, j: nat) {
    || (exists b :: 0 <= b < i && b < |strt| && o in strt[b])
    || (i < |strt| && j <= |strt[i]| && o in strt[i][..j])
  }

  /** s are the strings of the first i buckets, and the first j of the next one. */
  ghost predicate Taken(strt: seq<seq<Obj>>, s: seq<Obj>, i: nat, j: nat) {
    && i <= |strt| && j <= (if i < |strt| then |strt[i]| else 0)
    && |s| == Chained(strt[..i]) + j
    && forall o :: o in s <==> InFirst(strt, o, i, j)
  }

  function EmptyTable(n: nat): (t: seq<seq<Obj>>)
    ensures |t| == n && forall b :: 0 <= b < n ==> t[b] == []
  {
    seq(n, i => [])
  }

  lemma {:induction false} EmptyChained(n: nat)
    ensures Chained(EmptyTable(n)) == 0
  {
    if n > 0 {
      EmptyChained(n - 1);
      assert EmptyTable(n)[1..] == EmptyTable(n - 1);
    }
  }

  lemma RehashStart(h: Heap, strt: seq<seq<Obj>>, hash: Text -> nat, n: nat)
    requires n > 0
    ensures Rehashed(h, EmptyTable(n), hash, []) && Taken(strt, [], 0, 0)
  {
    EmptyChained(n);
    assert strt[..0] == [];
  }

  /** luaS_resize moves one string to its new chain. */
  lemma RehashOne(h: Heap, t: seq<seq<Obj>>, hash: Text -> nat, s: seq<Obj>, o: Obj)
    requires Rehashed(h, t, hash, s) && o !in s && o in h && h[o].body.Bytes?
    ensures var b := Bucket(hash, |t|, h[o].body.s); Rehashed(h, t[b := [o] + t[b]], hash, s + [o])
  {
    var b := Bucket(hash, |t|, h[o].body.s);
    var l := [o] + t[b];
    ChainedUpdate(t, b, l);
    assert o !in t[b];
    forall i, j | 0 <= i < j < |l| ensures l[i] != l[j] {
      assert l[j] == t[b][j - 1];
    }
  }

  lemma TakeOne(h: Heap, strt: seq<seq<Obj>>, hash: Text -> nat, s: seq<Obj>, i: nat, j: nat)
    requires StringTable(h, strt, hash) && Taken(strt, s, i, j) && i < |strt| && j < |strt[i]|
    ensures var o := strt[i][j]; o !in s && o in h && h[o].body.Bytes? && Taken(strt, s + [o], i, j + 1)
  {
    var o := strt[i][j];
    assert o in strt[i];
    assert strt[i][..j + 1] == strt[i][..j] + [o];
    assert Bucket(hash, |strt|, h[o].body.s) == i;
    assert NoDup(strt[i]);
    assert o !in strt[i][..j];
    assert forall b :: 0 <= b < i ==> o !in strt[b];
    assert !InFirst(strt, o, i, j);
    forall x ensures x in s + [o] <==> InFirst(strt, x, i, j + 1) {
      assert x in s <==> InFirst(strt, x, i, j);
    }
  }

  lemma NextBucket(strt: seq<seq<Obj>>, s: seq<Obj>, i: nat)
    requires i < |strt| && Taken(strt, s, i, |strt[i]|)
    ensures Taken(strt, s, i + 1, 0)
  {
    ChainedPrefix(strt, i);
    assert strt[i][..|strt[i]|] == strt[i];
    forall x ensures x in s <==> InFirst(strt, x, i + 1, 0) {
      assert x in s <==> InFirst(strt, x, i, |strt[i]|);
    }
  }

  lemma {:induction false} ChainedPrefix(strt: seq<seq<Obj>>, i: nat)
    requires i < |strt|
    ensures Chained(strt[..i + 1]) == Chained(strt[..i]) + |strt[i]|
    decreases i
  {
    if i == 0 {
      assert strt[..1][1..] == [] && strt[..0] == [];
    } else {
      ChainedPrefix(strt[1..], i - 1);
      assert strt[..i + 1][1..] == strt[1..][..i] && strt[..i][1..] == strt[1..][..i - 1];
    }
  }

  lemma RehashDone(h: Heap, strt: seq<seq<Obj>>, hash: Text -> nat, t: seq<seq<Obj>>, s: seq<Obj>)
    requires StringTable(h, strt, hash) && Rehashed(h, t, hash, s) && Taken(strt, s, |strt|, 0)
    ensures StringTable(h, t, hash) && Chained(t) == Chained(strt)
  {
    assert strt[..|strt|] == strt;
    forall o | o in h && h[o].body.Bytes? ensures o in t[Bucket(hash, |t|, h[o].body.s)] {
      assert o in strt[Bucket(hash, |strt|, h[o].body.s)];
      assert InFirst(strt, o, |strt|, 0);
    }
  }

  // ----- interning -----

  /** A string with these bytes is in the bucket of their hash, if anywhere. */
  lemma Interned(h: Heap, strt: seq<seq<Obj>>, hash: Text -> nat, s: Text, o: Obj)
    requires StringTable(h, strt, hash) && o in h && h[o].body == Bytes(s)
    ensures o in strt[Bucket(hash, |strt|, s)]
  {
  }

  lemma ChainNew(h: Heap, strt: seq<seq<Obj>>, hash: Text -> nat, s: Text, o: Obj)
    requires StringTable(h, strt, hash) && o !in h && (forall p :: p in h ==> h[p].body != Bytes(s))
    ensures var b := Bucket(hash, |strt|, s);
            && StringTable(h[o := Shape(STRING, Bytes(s))], strt[b := [o] + strt[b]], hash)
            && Chained(strt[b := [o] + strt[b]]) == Chained(strt) + 1
  {
    var b := Bucket(hash, |strt|, s);
    var l := [o] + strt[b];
    ChainedUpdate(strt, b, l);
    assert o !in strt[b];
    forall i, j | 0 <= i < j < |l| ensures l[i] != l[j] {
      assert l[j] == strt[b][j - 1];
    }
    var h', t := h[o := Shape(STRING, Bytes(s))], strt[b := l];
    forall p | p in h' && h'[p].body.Bytes? ensures p in t[Bucket(hash, |t|, h'[p].body.s)] {
      if p != o { assert p in strt[Bucket(hash, |strt|, h[p].body.s)]; }
    }
  }
}
