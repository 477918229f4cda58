/** The sizes rehash computes for the two parts of a table (ltable.c, lobject.c). */
module TableSizes {
  import opened Common
  import opened TableNodes

  const MAXBITS: nat := 26
  const MAXASIZE: nat := 0x400_0000

  // ----- powers of two -----

  /** The slices are (Half(i), Pow2(i)]. */
  function Half(i: nat): nat {
    if i == 0 then 0 else Pow2(i - 1)
  }

  lemma {:induction false} Pow2Grows(a: nat, b: nat)
    requires a <= b
    ensures Pow2(a) <= Pow2(b) && (a < b ==> 2 * Pow2(a) <= Pow2(b))
    decreases b
  {
    if a < b { Pow2Grows(a, b - 1); }
  }

  lemma Pow2Max()
    ensures Pow2(MAXBITS) == MAXASIZE
  {
    assert Pow2(8) == 256;
    assert Pow2(16) == 65536;
    assert Pow2(24) == 0x100_0000;
  }

  lemma {:induction false} Pow2Byte(n: nat)
    ensures Pow2(n + 8) == 256 * Pow2(n)
  {
    assert Pow2(n + 2) == 2 * Pow2(n + 1) == 4 * Pow2(n);
    assert Pow2(n + 4) == 2 * Pow2(n + 3) == 4 * Pow2(n + 2);
    assert Pow2(n + 6) == 2 * Pow2(n + 5) == 4 * Pow2(n + 4);
    assert Pow2(n + 8) == 2 * Pow2(n + 7) == 4 * Pow2(n + 6);
  }

  /** The table log_2 of luaO_log2: the number of bits of a byte. */
  function LogByte(x: nat): nat
    requires x < 256
  {
    if x < 1 then 0 else if x < 2 then 1 else if x < 4 then 2 else if x < 8 then 3 else if x < 16 then 4
    else if x < 32 then 5 else if x < 64 then 6 else if x < 128 then 7 else 8
  }

  /** l is the logarithm of x, rounded down; -1 when x is 0. */
  ghost predicate IsLog2(x: nat, l: int) {
    l >= -1 && x < Pow2(l + 1) && (l >= 0 ==> Pow2(l) <= x)
  }

  lemma ByteLog(x: nat)
    requires x < 256
    ensures IsLog2(x, LogByte(x) - 1)
  {
    assert Pow2(4) == 16 && Pow2(8) == 256;
  }

  /** luaO_log2 takes eight bits a turn. */
  method Log2(x: nat) returns (l: int)
    ensures IsLog2(x, l)
  {
    var y := x;
    l := -1;
    ghost var e: nat := 0;
    while y >= 256
      invariant l == e - 1 && y * Pow2(e) <= x < (y + 1) * Pow2(e) && (e > 0 ==> y > 0)
    {
      Pow2Byte(e);
      Shift(x, y, Pow2(e));
      l := l + 8;
      y := y / 256;
      e := e + 8;
    }
    ByteLog(y);
    LogShift(x, y, e, LogByte(y) - 1);
    l := l + LogByte(y);
  }

  lemma MulLe(a: int, b: int, p: nat)
    requires a <= b
    ensures a * p <= b * p
  {
  }

  lemma MulSwap(q: int, p: int)
    ensures (256 * q) * p == q * (256 * p)
  {
  }

  lemma Shift(x: nat, y: nat, p: nat)
    requires y * p <= x < (y + 1) * p
    ensures (y / 256) * (256 * p) <= x < (y / 256 + 1) * (256 * p)
  {
    var q := y / 256;
    MulLe(256 * q, y, p);
    MulLe(y + 1, 256 * (q + 1), p);
    MulSwap(q, p);
    MulSwap(q + 1, p);
  }

  lemma {:induction false} Pow2Add(a: nat, b: nat)
    ensures Pow2(a + b) == Pow2(a) * Pow2(b)
  {
    if b > 0 {
      Pow2Add(a, b - 1);
      assert Pow2(a + b) == 2 * Pow2(a + (b - 1));
    }
  }

  lemma LogShift(x: nat, y: nat, e: nat, l: int)
    requires y * Pow2(e) <= x < (y + 1) * Pow2(e) && IsLog2(y, l) && (e > 0 ==> y > 0)
    ensures IsLog2(x, l + e)
  {
    if l >= 0 {
      Pow2Add(l, e);
      MulLe(Pow2(l), y, Pow2(e));
    }
    Pow2Add(l + 1, e);
    MulLe(y + 1, Pow2(l + 1), Pow2(e));
  }

  /** ceillog2: the slice a number is in. */
  method CeilLog2(x: nat) returns (r: nat)
    requires x > 0
    ensures Half(r) < x <= Pow2(r)
  {
    var l := Log2(x - 1);
    r := l + 1;
  }

  lemma Ordered(x: nat, r: nat, s: nat)
    requires x <= Pow2(r) && Half(s) < x
    ensures s <= r
  {
    if r < s { Pow2Grows(r, s - 1); }
  }

  lemma SliceUnique(x: nat, r: nat, s: nat)
    requires Half(r) < x <= Pow2(r) && Half(s) < x <= Pow2(s)
    ensures r == s
  {
    Ordered(x, r, s);
    Ordered(x, s, r);
  }

  // ----- sets of keys -----

  /** A key that may live in an array part of n slots. */
  predicate Within(k: Value, n: nat) {
    k.Int? && 1 <= k.i <= n
  }

  ghost function Upto(ks: set<Value>, n: nat): set<Value> {
    set k | k in ks && Within(k, n)
  }

  ghost function Slice(ks: set<Value>, i: nat): set<Value> {
    set k | k in ks && Within(k, Pow2(i)) && !Within(k, Half(i))
  }

  /** The keys that go to the hash part. */
  ghost function Out(ks: set<Value>, n: nat): set<Value> {
    ks - Upto(ks, n)
  }

  ghost function ArrayKeys(a: seq<Value>, from: nat): set<Value> {
    set i: nat | from <= i < |a| && a[i] != Nil :: Int(i + 1)
  }

  ghost function HashKeys(ns: seq<Node>): set<Value> {
    set j: nat | j < |ns| && ns[j].val != Nil :: ns[j].key
  }

  lemma UptoSlice(ks: set<Value>, i: nat)
    ensures |Upto(ks, Pow2(i))| == |Upto(ks, Half(i))| + |Slice(ks, i)|
  {
    if i > 0 { Pow2Grows(i - 1, i); }
    assert Upto(ks, Pow2(i)) == Upto(ks, Half(i)) + Slice(ks, i);
  }

  /** At most n integer keys are in 1..n. */
  lemma {:induction false} UptoBound(ks: set<Value>, n: nat)
    ensures |Upto(ks, n)| <= n
  {
    if n > 0 {
      UptoBound(ks, n - 1);
      assert Upto(ks, n) <= Upto(ks, n - 1) + {Int(n)};
      Subset(Upto(ks, n), Upto(ks, n - 1) + {Int(n)});
    } else {
      assert Upto(ks, 0) == {};
    }
  }

  lemma {:induction false} Subset<T>(a: set<T>, b: set<T>)
    requires a <= b
    ensures |a| <= |b|
  {
    assert b == a + (b - a);
  }

  lemma OutSize(ks: set<Value>, n: nat)
    ensures |Out(ks, n)| == |ks| - |Upto(ks, n)|
  {
    assert ks == Out(ks, n) + Upto(ks, n);
  }

  // ----- computesizes -----

  /** nums counts the integer keys of ks slice by slice. */
  ghost predicate Counts(nums: seq<nat>, ks: set<Value>) {
    |nums| == MAXBITS + 1 && forall i :: 0 <= i <= MAXBITS ==> nums[i] == |Slice(ks, i)|
  }

  /** More than half of 1..Pow2(i) are in use. */
  ghost predicate Crowded(ks: set<Value>, i: nat) {
    2 * |Upto(ks, Pow2(i))| > Pow2(i)
  }

  /** n is the best size for the array part, as far as the sizes below Pow2(i) tell. */
  ghost predicate BestBelow(ks: set<Value>, n: nat, i: nat) {
    && (n == 0 || exists j: nat :: j < i && n == Pow2(j) && Crowded(ks, j))
    && forall j: nat :: j < i && Crowded(ks, j) ==> Pow2(j) <= n
  }

  /** n is 0 or the largest power of two such that more than half of 1..n are in use. */
  ghost predicate Optimal(ks: set<Value>, n: nat) {
    && (n == 0 || exists j: nat :: j <= MAXBITS && n == Pow2(j) && Crowded(ks, j))
    && forall j: nat :: Crowded(ks, j) ==> Pow2(j) <= n
  }

  lemma OptimalUnique(ks: set<Value>, n: nat, n': nat)
    requires Optimal(ks, n) && Optimal(ks, n')
    ensures n == n'
  {
    if n > 0 {
      var j: nat :| j <= MAXBITS && n == Pow2(j) && Crowded(ks, j);
      assert n <= n';
    }
    if n' > 0 {
      var j: nat :| j <= MAXBITS && n' == Pow2(j) && Crowded(ks, j);
      assert n' <= n;
    }
  }

  /** Sizes that cannot be crowded: there are too few keys. */
  lemma TooFew(ks: set<Value>, i: nat, j: nat)
    requires i <= j && Pow2(i) >= 2 * |Upto(ks, MAXASIZE)| && forall k :: k in ks && k.Int? && k.i > 0 ==>
        k.i <= MAXASIZE
    ensures !Crowded(ks, j)
  {
    Pow2Grows(i, j);
    assert Upto(ks, Pow2(j)) <= Upto(ks, MAXASIZE);
    Subset(Upto(ks, Pow2(j)), Upto(ks, MAXASIZE));
  }

  ghost predicate Candidates(ks: set<Value>) {
    forall k :: k in ks && k.Int? && k.i > 0 ==> k.i <= MAXASIZE
  }

  lemma NextBest(ks: set<Value>, n: nat, i: nat)
    requires BestBelow(ks, n, i)
    ensures Crowded(ks, i) ==> BestBelow(ks, Pow2(i), i + 1)
    ensures !Crowded(ks, i) ==> BestBelow(ks, n, i + 1)
  {
    if Crowded(ks, i) {
      forall j: nat | j < i + 1 && Crowded(ks, j) ensures Pow2(j) <= Pow2(i) { Pow2Grows(j, i); }
    }
  }

  lemma BestAll(ks: set<Value>, n: nat, i: nat)
    requires BestBelow(ks, n, i) && i <= MAXBITS + 1 && forall j: nat :: j >= i ==> !Crowded(ks, j)
    ensures Optimal(ks, n)
  {
  }

  /** An empty slice cannot make a size crowded. */
  lemma EmptySlice(ks: set<Value>, i: nat)
    requires |Slice(ks, i)| == 0
    ensures !Crowded(ks, i)
  {
    UptoSlice(ks, i);
    UptoBound(ks, Half(i));
  }

  /** When all keys are in 1..Pow2(i), the larger sizes are not crowded. */
  lemma AllCounted(ks: set<Value>, i: nat, j: nat)
    requires |Upto(ks, Pow2(i))| == |Upto(ks, MAXASIZE)| && Candidates(ks) && j > i
    ensures !Crowded(ks, j)
  {
    UptoBound(ks, Pow2(i));
    TooFew(ks, i + 1, j);
  }

  lemma MaxSlice(ks: set<Value>, i: nat, p: nat)
    requires i == MAXBITS + 1 && p == Pow2(i)
    ensures p / 2 >= |Upto(ks, MAXASIZE)|
  {
    Pow2Max();
    UptoBound(ks, MAXASIZE);
  }

  /** computesizes: the optimal size of the array part, and how many keys go there. */
  method ComputeSizes(nums: array<nat>, narray: nat, ghost ks: set<Value>) returns (na: nat, n: nat)
    requires Counts(nums[..], ks) && Candidates(ks) && narray == |Upto(ks, MAXASIZE)|
    ensures Optimal(ks, n) && na == |Upto(ks, n)| && n <= 0x400_0000
    ensures n / 2 <= na <= n
  {
    hide Crowded, Slice, Upto, Optimal, BestBelow, Pow2, Candidates;
    var i, twotoi, a := 0, 1, 0;
    na, n := 0, 0;
    SizesStart(ks);
    while twotoi / 2 < narray
      invariant twotoi == Pow2(i) && 0 <= i <= MAXBITS + 1 && a == |Upto(ks, Half(i))|
      invariant BestBelow(ks, n, i) && na == |Upto(ks, n)|
      decreases MAXBITS + 1 - i
    {
      if i == MAXBITS + 1 { MaxSlice(ks, i, twotoi); }
      assert nums[i] == nums[..][i];
      UptoSlice(ks, i);
      NextBest(ks, n, i);
      ghost var before := n;
      if nums[i] > 0 {
        a := a + nums[i];
        CrowdedNow(ks, i, twotoi);
        if a > twotoi / 2 {
          n := twotoi;
          na := a;
        }
      } else {
        EmptySlice(ks, i);
      }
      if a == narray {
        forall j: nat | j >= i + 1 ensures !Crowded(ks, j) { AllCounted(ks, i, j); }
        BestAll(ks, n, i + 1);
        OptimalFits(ks, n);
        return;
      }
      DoublePow2(i);
      i := i + 1;
      twotoi := twotoi * 2;
    }
    forall j: nat | j >= i ensures !Crowded(ks, j) { EnoughRoom(ks, i, j, twotoi); }
    BestAll(ks, n, i);
    OptimalFits(ks, n);
  }

  lemma SizesStart(ks: set<Value>)
    ensures Pow2(0) == 1 && Half(0) == 0 && |Upto(ks, 0)| == 0 && BestBelow(ks, 0, 0)
  {
    assert Upto(ks, 0) == {};
  }

  lemma DoublePow2(i: nat)
    ensures Pow2(i + 1) == 2 * Pow2(i) && Half(i + 1) == Pow2(i)
  {
  }

  lemma CrowdedNow(ks: set<Value>, i: nat, p: nat)
    requires p == Pow2(i)
    ensures Crowded(ks, i) <==> |Upto(ks, Pow2(i))| > p / 2
  {
  }

  lemma EnoughRoom(ks: set<Value>, i: nat, j: nat, p: nat)
    requires i <= j && p == Pow2(i) && p / 2 >= |Upto(ks, MAXASIZE)| && Candidates(ks)
    ensures !Crowded(ks, j)
  {
    TooFew(ks, i, j);
  }

  lemma OptimalFits(ks: set<Value>, n: nat)
    requires Optimal(ks, n)
    ensures n <= MAXASIZE && n / 2 <= |Upto(ks, n)| <= n
  {
    UptoBound(ks, n);
    if n > 0 {
      var j: nat :| j <= MAXBITS && n == Pow2(j) && Crowded(ks, j);
      Pow2Grows(j, MAXBITS);
      Pow2Max();
    }
  }
}
