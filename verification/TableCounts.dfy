/** Counting the keys of a table before it is rehashed (ltable.c). */
module TableCounts {
  import opened Common
  import opened TableNodes
  import opened TableSizes

  /** arrayindex: integers that fit a C int may index the array part. */
  function ArrayIndex(key: Value): int {
    if key.Int? && -INT_MAX - 1 <= key.i <= INT_MAX then key.i else -1
  }

  lemma ArrayIndexWithin(key: Value, n: nat)
    requires n <= INT_MAX
    ensures 0 < ArrayIndex(key) <= n <==> Within(key, n)
  {
  }

  // ----- adding one key to the counts -----

  lemma SliceAdd(ks: set<Value>, k: Value, i: nat)
    requires k !in ks
    ensures |Slice(ks + {k}, i)| == |Slice(ks, i)| + if Within(k, Pow2(i)) && !Within(k, Half(i)) then 1 else 0
  {
    if Within(k, Pow2(i)) && !Within(k, Half(i)) {
      assert Slice(ks + {k}, i) == Slice(ks, i) + {k};
    } else {
      assert Slice(ks + {k}, i) == Slice(ks, i);
    }
  }

  lemma UptoAdd(ks: set<Value>, k: Value, n: nat)
    requires k !in ks
    ensures |Upto(ks + {k}, n)| == |Upto(ks, n)| + if Within(k, n) then 1 else 0
  {
    if Within(k, n) {
      assert Upto(ks + {k}, n) == Upto(ks, n) + {k};
    } else {
      assert Upto(ks + {k}, n) == Upto(ks, n);
    }
  }

  lemma CountOne(nums: seq<nat>, ks: set<Value>, k: Value, r: nat)
    requires Counts(nums, ks) && k !in ks && Within(k, MAXASIZE) && Half(r) < k.i <= Pow2(r)
    ensures r <= MAXBITS && Counts(nums[r := nums[r] + 1], ks + {k})
  {
    Pow2Max();
    Ordered(k.i, MAXBITS, r);
    forall i | 0 <= i <= MAXBITS ensures nums[r := nums[r] + 1][i] == |Slice(ks + {k}, i)| {
      SliceAdd(ks, k, i);
      if Within(k, Pow2(i)) && !Within(k, Half(i)) { SliceUnique(k.i, r, i); }
    }
  }

  lemma CountNone(nums: seq<nat>, ks: set<Value>, k: Value)
    requires Counts(nums, ks) && k !in ks && !Within(k, MAXASIZE)
    ensures Counts(nums, ks + {k})
  {
    forall i | 0 <= i <= MAXBITS ensures nums[i] == |Slice(ks + {k}, i)| {
      Pow2Max();
      Pow2Grows(i, MAXBITS);
      SliceAdd(ks, k, i);
    }
  }

  /** countint: a key that may index the array part is counted in its slice. */
  method CountInt(key: Value, nums: array<nat>, ghost ks: set<Value>) returns (c: nat)
    requires Counts(nums[..], ks) && key !in ks
    modifies nums
    ensures Counts(nums[..], ks + {key}) && c == (if Within(key, MAXASIZE) then 1 else 0)
  {
    hide Counts, Pow2, Half;
    CountsSize(nums[..], ks);
    var k := ArrayIndex(key);
    ArrayIndexWithin(key, MAXASIZE);
    if 0 < k <= MAXASIZE {
      var r := CeilLog2(k);
      CountOne(nums[..], ks, key, r);
      nums[r] := nums[r] + 1;
      return 1;
    } else {
      CountNone(nums[..], ks, key);
      return 0;
    }
  }

  lemma CountsSize(nums: seq<nat>, ks: set<Value>)
    requires Counts(nums, ks)
    ensures |nums| == MAXBITS + 1
  {
  }

  // ----- the array part -----

  ghost function FirstKeys(a: seq<Value>, n: nat): set<Value> {
    set i: nat | i < |a| && i < n && a[i] != Nil :: Int(i + 1)
  }

  lemma FirstNext(a: seq<Value>, n: nat)
    requires n < |a|
    ensures Int(n + 1) !in FirstKeys(a, n)
    ensures FirstKeys(a, n + 1) == if a[n] != Nil then FirstKeys(a, n) + {Int(n + 1)} else FirstKeys(a, n)
  {
  }

  /** While slice lg is being counted, its count so far is in lc. */
  ghost predicate Counting(nums: seq<nat>, ks: set<Value>, lg: nat, lc: nat) {
    |nums| == MAXBITS + 1 && lg <= MAXBITS && Counts(nums[lg := nums[lg] + lc], ks)
  }

  lemma CountingOne(nums: seq<nat>, ks: set<Value>, k: Value, lg: nat, lc: nat)
    requires Counting(nums, ks, lg, lc) && k !in ks && k.Int? && Half(lg) < k.i <= Pow2(lg) && k.i <= MAXASIZE
    ensures Counting(nums, ks + {k}, lg, lc + 1)
  {
    CountOne(nums[lg := nums[lg] + lc], ks, k, lg);
    assert nums[lg := nums[lg] + lc][lg := nums[lg] + lc + 1] == nums[lg := nums[lg] + (lc + 1)];
  }

  function Min(a: nat, b: nat): nat {
    if a < b then a else b
  }

  /** The inner loop of numusearray: the keys of one slice. */
  method CountSlice(a: array<Value>, start: nat, lim: nat, lg: nat, ghost nums: seq<nat>) returns (lc: nat, i: nat)
    requires 1 <= start <= lim + 1 && lim <= a.Length && lim <= Pow2(lg) && Half(lg) < start && lg <= MAXBITS
    requires Counts(nums, FirstKeys(a[..], start - 1))
    ensures i == lim + 1 && Counting(nums, FirstKeys(a[..], lim), lg, lc)
    ensures |FirstKeys(a[..], lim)| == |FirstKeys(a[..], start - 1)| + lc
  {
    hide Counts, Counting, Pow2, Half, FirstKeys;
    ghost var s := a[..];
    CountingStart(nums, FirstKeys(s, start - 1), lg);
    SliceFits(lg);
    lc := 0;
    i := start;
    while i <= lim
      invariant start <= i <= lim + 1 && Counting(nums, FirstKeys(s, i - 1), lg, lc)
      invariant |FirstKeys(s, i - 1)| == |FirstKeys(s, start - 1)| + lc
    {
      FirstNext(s, i - 1);
      if a[i - 1] != Nil {
        CountingOne(nums, FirstKeys(s, i - 1), Int(i), lg, lc);
        lc := lc + 1;
      }
      i := i + 1;
    }
  }

  lemma CountingStart(nums: seq<nat>, ks: set<Value>, lg: nat)
    requires Counts(nums, ks) && lg <= MAXBITS
    ensures Counting(nums, ks, lg, 0)
  {
    assert nums[lg := nums[lg] + 0] == nums;
  }

  lemma SliceFits(lg: nat)
    requires lg <= MAXBITS
    ensures Pow2(lg) <= MAXASIZE
  {
    Pow2Grows(lg, MAXBITS);
    Pow2Max();
  }

  /** numusearray counts the keys of the array part, up to MAXASIZE. */
  method NumUseArray(a: array<Value>, nums: array<nat>) returns (ause: nat)
    requires Counts(nums[..], {})
    modifies nums
    ensures Counts(nums[..], FirstKeys(a[..], MAXASIZE)) && ause == |FirstKeys(a[..], MAXASIZE)|
  {
    hide Counts, Counting, Pow2, Half;
    var lg, ttlg, i := 0, 1, 1;
    ause := 0;
    ArrayStart(a[..]);
    while lg <= MAXBITS
      invariant 0 <= lg <= MAXBITS + 1 && ttlg == Pow2(lg) && i == Min(Half(lg), a.Length) + 1
      invariant Counts(nums[..], FirstKeys(a[..], i - 1)) && ause == |FirstKeys(a[..], i - 1)|
    {
      CountsSize(nums[..], FirstKeys(a[..], i - 1));
      SliceGrows(lg);
      var lim := ttlg;
      if lim > a.Length {
        lim := a.Length;
        if i > lim {
          ArrayDone(a[..], i - 1, lg);
          return;
        }
      }
      var lc, j := CountSlice(a, i, lim, lg, nums[..]);
      SliceCounted(nums[..], FirstKeys(a[..], lim), lg, lc);
      nums[lg] := nums[lg] + lc;
      ause := ause + lc;
      i := j;
      DoublePow2(lg);
      lg := lg + 1;
      ttlg := ttlg * 2;
    }
    LastSlice(a[..], i - 1);
  }

  lemma ArrayStart(a: seq<Value>)
    ensures FirstKeys(a, 0) == {} && Half(0) == 0 && Pow2(0) == 1
  {
  }

  lemma SliceGrows(lg: nat)
    ensures Half(lg) < Pow2(lg)
  {
  }

  lemma SliceCounted(nums: seq<nat>, ks: set<Value>, lg: nat, lc: nat)
    requires Counting(nums, ks, lg, lc)
    ensures |nums| == MAXBITS + 1 && lg <= MAXBITS && Counts(nums[lg := nums[lg] + lc], ks)
  {
  }

  lemma ArrayDone(a: seq<Value>, n: nat, lg: nat)
    requires n == Min(Half(lg), |a|) && n + 1 > |a| && lg <= MAXBITS
    ensures FirstKeys(a, n) == FirstKeys(a, MAXASIZE)
  {
    SliceFits(lg);
    SliceGrows(lg);
  }

  lemma LastSlice(a: seq<Value>, n: nat)
    requires n == Min(Half(MAXBITS + 1), |a|)
    ensures FirstKeys(a, n) == FirstKeys(a, MAXASIZE)
  {
    Pow2Max();
  }

  /** A value above MAXASIZE is not counted. */
  lemma LostKey(a: seq<Value>, i: nat)
    requires MAXASIZE <= i < |a| && a[i] != Nil
    ensures Int(i + 1) in ArrayKeys(a, 0) && Int(i + 1) !in FirstKeys(a, MAXASIZE)
  {
  }

  /** All values of the array part are counted just when none is above MAXASIZE. */
  lemma AllArray(a: seq<Value>)
    ensures FirstKeys(a, MAXASIZE) == ArrayKeys(a, 0) <==> forall i :: MAXASIZE <= i < |a| ==> a[i] == Nil
  {
    if forall i :: MAXASIZE <= i < |a| ==> a[i] == Nil {
      assert FirstKeys(a, MAXASIZE) == ArrayKeys(a, 0);
    } else {
      var i :| MAXASIZE <= i < |a| && a[i] != Nil;
      LostKey(a, i);
    }
  }

  // ----- the hash part -----

  lemma HashNext(ns: seq<Node>, i: nat)
    requires KeysOk(ns) && i < |ns|
    ensures ns[i].val != Nil ==> ns[i].key != Nil && ns[i].key !in HashKeys(ns[i + 1..])
    ensures HashKeys(ns[i..]) == HashKeys(ns[i + 1..]) + if ns[i].val != Nil then {ns[i].key} else {}
  {
    var a, b := ns[i..], ns[i + 1..];
    assert a == [ns[i]] + b;
    forall k ensures k in HashKeys(a) <==> k in HashKeys(b) || (ns[i].val != Nil && k == ns[i].key) {
      if k in HashKeys(b) {
        var j: nat :| j < |b| && b[j].val != Nil && b[j].key == k;
        assert a[j + 1] == b[j];
      }
      if k in HashKeys(a) {
        var j: nat :| j < |a| && a[j].val != Nil && a[j].key == k;
        if j > 0 { assert b[j - 1] == a[j]; }
      }
      if ns[i].val != Nil && k == ns[i].key { assert a[0] == ns[i]; }
    }
    if ns[i].val != Nil {
      forall j: nat | j < |b| ensures b[j].key != ns[i].key { assert b[j] == ns[i + 1 + j]; }
    }
  }

  /** numusehash counts the keys of the hash part, from the last node to the first. */
  method NumUseHash(node: array<Node>, nums: array<nat>, ghost ks: set<Value>) returns (totaluse: nat, ause: nat)
    requires KeysOk(node[..]) && Counts(nums[..], ks) && HashKeys(node[..]) !! ks
    modifies nums
    ensures Counts(nums[..], ks + HashKeys(node[..]))
    ensures totaluse == |HashKeys(node[..])| && ause == |Upto(HashKeys(node[..]), MAXASIZE)|
  {
    hide Counts, KeysOk, HashKeys, Upto;
    ghost var ns := node[..];
    var i := node.Length;
    totaluse, ause := 0, 0;
    HashStart(ns, ks);
    while i > 0
      invariant 0 <= i <= |ns| && Counts(nums[..], ks + HashKeys(ns[i..]))
      invariant totaluse == |HashKeys(ns[i..])| && ause == |Upto(HashKeys(ns[i..]), MAXASIZE)|
    {
      i := i - 1;
      HashNext(ns, i);
      ghost var done := HashKeys(ns[i + 1..]);
      HashLater(ns, i, ks);
      if node[i].val != Nil {
        var c := CountInt(node[i].key, nums, ks + done);
        assert ks + done + {ns[i].key} == ks + (done + {ns[i].key});
        UptoAdd(done, ns[i].key, MAXASIZE);
        ause := ause + c;
        totaluse := totaluse + 1;
      } else {
        assert done + {} == done;
      }
    }
    assert ns[0..] == ns;
  }

  lemma HashStart(ns: seq<Node>, ks: set<Value>)
    ensures HashKeys(ns[|ns|..]) == {} && Upto({}, MAXASIZE) == {} && ks + {} == ks
  {
  }

  lemma HashLater(ns: seq<Node>, i: nat, ks: set<Value>)
    requires i < |ns| && HashKeys(ns) !! ks
    ensures ns[i].val != Nil ==> ns[i].key !in ks
  {
    if ns[i].val != Nil { assert ns[i].key in HashKeys(ns); }
  }
}
