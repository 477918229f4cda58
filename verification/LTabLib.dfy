/** table.sort: quicksort in place, with the pivot as sentinel, that recurses on the smaller
    half only (ltablib.c). */
module LTabLib {
  import opened Common

  type Less<!T> = (T, T) -> bool

  /** What table.sort asks of an order function. */
  ghost predicate StrictWeak<T(!new)>(less: Less<T>) {
    && (forall x :: !less(x, x))
    && (forall x, y, z :: less(x, y) && less(y, z) ==> less(x, z))
    && (forall x, y, z :: Le(less, x, y) && Le(less, y, z) ==> Le(less, x, z))
  }

  /** x may stand before y. */
  predicate Le<T>(less: Less<T>, x: T, y: T) {
    !less(y, x)
  }

  lemma LeTrans<T(!new)>(less: Less<T>, x: T, y: T, z: T)
    requires StrictWeak(less) && Le(less, x, y) && Le(less, y, z)
    ensures Le(less, x, z)
  {
  }

  lemma LessLe<T(!new)>(less: Less<T>, x: T, y: T)
    requires StrictWeak(less) && less(x, y)
    ensures Le(less, x, y)
  {
    assert less(y, x) ==> less(x, x);
  }

  // ----- permutations of a part -----

  ghost predicate Range<T>(s: seq<T>, l: int, u: int) {
    0 <= l <= u + 1 <= |s|
  }

  /** t is s with the elements from l to u in another order. */
  ghost predicate Shuffled<T>(s: seq<T>, t: seq<T>, l: int, u: int) {
    && |s| == |t| && Range(s, l, u)
    && s[..l] == t[..l] && s[u + 1..] == t[u + 1..]
    && multiset(s[l..u + 1]) == multiset(t[l..u + 1])
  }

  function Swapped<T>(s: seq<T>, i: int, j: int): seq<T>
    requires 0 <= i < |s| && 0 <= j < |s|
  {
    s[i := s[j]][j := s[i]]
  }

  lemma ShuffledRefl<T>(s: seq<T>, l: int, u: int)
    requires Range(s, l, u)
    ensures Shuffled(s, s, l, u)
  {
  }

  lemma ShuffledTrans<T>(s: seq<T>, t: seq<T>, r: seq<T>, l: int, u: int)
    requires Shuffled(s, t, l, u) && Shuffled(t, r, l, u)
    ensures Shuffled(s, r, l, u)
  {
  }

  lemma SwappedIs<T>(s: seq<T>, l: int, u: int, i: int, j: int)
    requires Range(s, l, u) && l <= i <= u && l <= j <= u
    ensures Shuffled(s, Swapped(s, i, j), l, u)
  {
    var t := Swapped(s, i, j);
    var a, b := s[l..u + 1], t[l..u + 1];
    assert b == a[i - l := a[j - l]][j - l := a[i - l]];
    SwapMultiset(a, i - l, j - l);
  }

  lemma SwapMultiset<T>(a: seq<T>, i: int, j: int)
    requires 0 <= i < |a| && 0 <= j < |a|
    ensures multiset(a[i := a[j]][j := a[i]]) == multiset(a)
  {
  }

  lemma ShuffledSame<T>(s: seq<T>, t: seq<T>, l: int, u: int, k: int)
    requires Shuffled(s, t, l, u) && 0 <= k < |s| && (k < l || k > u)
    ensures t[k] == s[k]
  {
    if k < l { assert s[..l][k] == t[..l][k]; } else { assert s[u + 1..][k - u - 1] == t[u + 1..][k - u - 1]; }
  }

  lemma ThreeParts<T>(s: seq<T>, l: int, j: int, i: int, u: int)
    requires 0 <= l <= j <= i + 1 <= u + 1 <= |s|
    ensures s[l..u + 1] == s[l..j] + s[j..i + 1] + s[i + 1..u + 1]
  {
  }

  /** A part of the part is shuffled. */
  lemma ShuffledWider<T>(s: seq<T>, t: seq<T>, j: int, i: int, l: int, u: int)
    requires Shuffled(s, t, j, i) && Range(s, l, u) && l <= j && i <= u
    ensures Shuffled(s, t, l, u)
  {
    forall k | 0 <= k < |s| && (k < j || k > i) ensures t[k] == s[k] { ShuffledSame(s, t, j, i, k); }
    assert s[..l] == t[..l] && s[u + 1..] == t[u + 1..] && s[l..j] == t[l..j] && s[i + 1..u + 1] == t[i + 1..u + 1];
    ThreeParts(s, l, j, i, u);
    ThreeParts(t, l, j, i, u);
  }

  /** A shuffled element was somewhere in the part before. */
  lemma ShuffledFrom<T>(s: seq<T>, t: seq<T>, l: int, u: int, k: int) returns (j: int)
    requires Shuffled(s, t, l, u) && l <= k <= u
    ensures l <= j <= u && t[k] == s[j]
  {
    assert t[l..u + 1][k - l] == t[k];
    assert t[k] in multiset(t[l..u + 1]);
    assert t[k] in s[l..u + 1];
    var m :| 0 <= m < |s[l..u + 1]| && s[l..u + 1][m] == t[k];
    j := m + l;
  }

  // ----- order of a part -----

  ghost predicate SortedIn<T(!new)>(less: Less<T>, s: seq<T>, l: int, u: int) {
    Range(s, l, u) && forall x, y :: l <= x <= y <= u ==> Le(less, s[x], s[y])
  }

  /** Outside of l..u every element of the part from l0 to u0 has its final place. */
  ghost predicate Placed<T(!new)>(less: Less<T>, s: seq<T>, l0: int, u0: int, l: int, u: int) {
    && Range(s, l0, u0) && l0 <= l && u <= u0 && l <= u + 1
    && forall x, y :: l0 <= x <= y <= u0 && (x < l || y > u) ==> Le(less, s[x], s[y])
  }

  /** Shuffling the part that is not placed yet keeps the others placed. */
  lemma PlacedStays<T(!new)>(less: Less<T>, s: seq<T>, t: seq<T>, l0: int, u0: int, l: int, u: int)
    requires Placed(less, s, l0, u0, l, u) && Shuffled(s, t, l, u)
    ensures Placed(less, t, l0, u0, l, u)
  {
    forall x, y | l0 <= x <= y <= u0 && (x < l || y > u) ensures Le(less, t[x], t[y]) {
      var x', y' := x, y;
      if l <= x <= u { x' := ShuffledFrom(s, t, l, u, x); } else { ShuffledSame(s, t, l, u, x); }
      if l <= y <= u { y' := ShuffledFrom(s, t, l, u, y); } else { ShuffledSame(s, t, l, u, y); }
      assert t[x] == s[x'] && t[y] == s[y'];
    }
  }

  lemma PlacedSorted<T(!new)>(less: Less<T>, s: seq<T>, l0: int, u0: int, l: int, u: int)
    requires Placed(less, s, l0, u0, l, u) && SortedIn(less, s, l, u)
    ensures SortedIn(less, s, l0, u0)
  {
  }

  /** Everything up to i is at most P, and everything from j on at least P. */
  ghost predicate Around<T(!new)>(less: Less<T>, s: seq<T>, l: int, i: int, j: int, u: int, P: T) {
    && Range(s, l, u) && l <= i + 1 && i <= u && l <= j <= u + 1
    && (forall k :: l <= k <= i ==> Le(less, s[k], P))
    && (forall k :: j <= k <= u ==> Le(less, P, s[k]))
  }

  /** The pivot at i, and all that is outside of l..u, has its final place. */
  ghost predicate Parted<T(!new)>(less: Less<T>, s: seq<T>, l0: int, u0: int, l: int, i: int, u: int) {
    Range(s, l0, u0) && l0 <= l <= i <= u <= u0 &&
    forall x, y :: l0 <= x <= y <= u0 && (x < l || y > u || x <= i <= y) ==> Le(less, s[x], s[y])
  }

  /** After the partition the pivot is placed, and so are both halves with respect to it. */
  lemma PivotPlaced<T(!new)>(less: Less<T>, s: seq<T>, l0: int, u0: int, l: int, i: int, u: int)
    requires StrictWeak(less) && Placed(less, s, l0, u0, l, u) && l <= i <= u && Around(less, s, l, i, i, u, s[i])
    ensures Parted(less, s, l0, u0, l, i, u)
  {
    forall x, y | l0 <= x <= y <= u0 && (x < l || y > u || x <= i <= y) ensures Le(less, s[x], s[y]) {
      if l <= x <= i <= y <= u { LeTrans(less, s[x], s[i], s[y]); }
    }
  }

  /** The half that was sorted is placed now. */
  lemma HalfPlaced<T(!new)>(less: Less<T>, s: seq<T>, t: seq<T>, l0: int, u0: int, l: int, i: int, u: int, left: bool)
    requires Range(s, l0, u0) && l0 <= l <= i <= u <= u0
    requires Parted(less, s, l0, u0, l, i, u)
    requires Shuffled(s, t, if left then l else i + 1, if left then i - 1 else u)
        && SortedIn(less, t, if left then l else i + 1, if left then i - 1 else u)
    ensures Placed(less, t, l0, u0, if left then i + 1 else l, if left then u else i - 1)
  {
    var a, b := if left then l else i + 1, if left then i - 1 else u;
    forall x, y | l0 <= x <= y <= u0 && (x < (if left then i + 1 else l) || y > (if left then u else i - 1))
        ensures Le(less, t[x], t[y]) {
      var x', y' := x, y;
      if a <= x <= b { x' := ShuffledFrom(s, t, a, b, x); } else { ShuffledSame(s, t, a, b, x); }
      if a <= y <= b { y' := ShuffledFrom(s, t, a, b, y); } else { ShuffledSame(s, t, a, b, y); }
      assert t[x] == s[x'] && t[y] == s[y'];
      if !(a <= x <= b && a <= y <= b) { assert x' <= y'; }
    }
  }

  // ----- the algorithm -----

  /** set2 after two reads: the elements at i and j change places. */
  method Swap<T>(a: array<T>, i: int, j: int)
    requires 0 <= i < a.Length && 0 <= j < a.Length
    modifies a
    ensures a[..] == Swapped(old(a[..]), i, j)
  {
    a[i], a[j] := a[j], a[i];
  }

  /** The ends of the part are put in order. */
  method OrderEnds<T(!new)>(a: array<T>, less: Less<T>, l: int, u: int)
    requires StrictWeak(less) && 0 <= l < u < a.Length
    modifies a
    ensures Shuffled(old(a[..]), a[..], l, u) && Le(less, a[l], a[u])
  {
    ShuffledRefl(a[..], l, u);
    SwappedIs(a[..], l, u, l, u);
    if less(a[u], a[l]) {
      LessLe(less, a[u], a[l]);
      Swap(a, l, u);
    }
  }

  /** The middle element is put in order with the ends. */
  method OrderMiddle<T(!new)>(a: array<T>, less: Less<T>, l: int, i: int, u: int)
    requires StrictWeak(less) && 0 <= l < i < u < a.Length && Le(less, a[l], a[u])
    modifies a
    ensures Shuffled(old(a[..]), a[..], l, u) && Le(less, a[l], a[i]) && Le(less, a[i], a[u])
  {
    ShuffledRefl(a[..], l, u);
    SwappedIs(a[..], l, u, i, l);
    SwappedIs(a[..], l, u, i, u);
    if less(a[i], a[l]) {
      LessLe(less, a[i], a[l]);
      Swap(a, i, l);
    } else if less(a[u], a[i]) {
      LessLe(less, a[u], a[i]);
      Swap(a, i, u);
    }
  }

  /** The first inner loop: it stops at the pivot at the latest. */
  method ScanUp<T(!new)>(a: array<T>, less: Less<T>, l: int, i0: int, j: int, u: int, P: T) returns (i: int)
    requires StrictWeak(less) && 0 <= l <= i0 <= j < u < a.Length && a[u - 1] == P
        && Around(less, a[..], l, i0, j, u, P) && i0 < u - 1
    ensures i0 < i <= u - 1 && (i <= j || i == i0 + 1) && Le(less, P, a[i]) && Around(less, a[..], l, i - 1, j, u, P)
  {
    i := i0 + 1;
    while less(a[i], P)
      invariant i0 < i <= u - 1 && (i <= j || i == i0 + 1) && Around(less, a[..], l, i - 1, j, u, P)
      decreases u - i
    {
      assert i <= u;  // no "invalid order function for sorting"
      LessLe(less, a[i], P);
      assert i < j || i == i0 + 1 > j;
      i := i + 1;
    }
  }

  /** The second inner loop: it stops at the elements the first one has passed. */
  method ScanDown<T(!new)>(a: array<T>, less: Less<T>, l: int, i: int, j0: int, u: int, P: T) returns (j: int)
    requires StrictWeak(less) && 0 <= l < i <= u && j0 <= u < a.Length && Around(less, a[..], l, i - 1, j0, u, P)
        && i - 1 <= j0 && l < j0
    ensures i - 1 <= j < j0 || (j == j0 - 1 && j >= l)
    ensures Le(less, a[j], P) && Around(less, a[..], l, i - 1, j + 1, u, P)
  {
    j := j0 - 1;
    while less(P, a[j])
      invariant l <= j < j0 && (i - 1 <= j || j == j0 - 1) && Around(less, a[..], l, i - 1, j + 1, u, P)
      decreases j
    {
      assert j >= l;  // no "invalid order function for sorting"
      LessLe(less, P, a[j]);
      j := j - 1;
    }
  }

  lemma SwapAround<T(!new)>(less: Less<T>, s: seq<T>, l: int, i: int, j: int, u: int, P: T)
    requires l < i <= j && Around(less, s, l, i - 1, j + 1, u, P) && j < u && Le(less, P, s[i]) && Le(less, s[j], P)
    ensures Around(less, Swapped(s, i, j), l, i, j, u, P)
  {
  }

  /** The loop around the two scans. */
  method Partition<T(!new)>(a: array<T>, less: Less<T>, l: int, u: int, P: T) returns (i: int)
    requires StrictWeak(less) && 0 <= l && l + 3 <= u < a.Length && a[u - 1] == P && Le(less, a[l], P)
        && Le(less, P, a[u])
    modifies a
    ensures l < i <= u - 1 && a[u - 1] == P && Shuffled(old(a[..]), a[..], l, u)
        && Around(less, a[..], l, i - 1, i, u, P)
  {
    hide Shuffled, StrictWeak;
    ghost var s0 := a[..];
    ShuffledRefl(s0, l, u);
    PivotEqual(less, P);
    i := l;
    var j := u - 1;
    while true
      invariant l <= i <= j <= u - 1 && l < j && i < u - 1 && a[u - 1] == P
      invariant Shuffled(s0, a[..], l, u) && Around(less, a[..], l, i, j, u, P)
      decreases j - i
    {
      i := ScanUp(a, less, l, i, j, u, P);
      j := ScanDown(a, less, l, i, j, u, P);
      if j < i { break; }
      ghost var s := a[..];
      SwapAround(less, s, l, i, j, u, P);
      SwappedIs(s, l, u, i, j);
      Swap(a, i, j);
      ShuffledTrans(s0, s, a[..], l, u);
    }
  }

  lemma PivotEqual<T(!new)>(less: Less<T>, P: T)
    requires StrictWeak(less)
    ensures Le(less, P, P)
  {
  }

  /** The pivot goes to the place where the scans met. */
  method PlacePivot<T(!new)>(a: array<T>, less: Less<T>, l: int, i: int, u: int, P: T)
    requires StrictWeak(less) && 0 <= l < i <= u - 1 && u < a.Length && a[u - 1] == P
        && Around(less, a[..], l, i - 1, i, u, P)
    modifies a
    ensures a[i] == P && Shuffled(old(a[..]), a[..], l, u) && Around(less, a[..], l, i, i, u, P)
  {
    PivotEqual(less, P);
    SwappedIs(a[..], l, u, u - 1, i);
    Swap(a, u - 1, i);
  }

  lemma PivotMoved<T>(s: seq<T>, l: int, m: int, u: int)
    requires 0 <= l < m < u < |s|
    ensures var t := Swapped(s, m, u - 1); |t| == |s| && t[u - 1] == s[m] && t[l] == s[l] && t[u] == s[u]
  {
  }

  /** One partition of a part of at least four elements. */
  method Split<T(!new)>(a: array<T>, less: Less<T>, l: int, m: int, u: int) returns (i: int)
    requires StrictWeak(less) && 0 <= l && l + 3 <= u < a.Length && l < m < u && Le(less, a[l], a[m])
        && Le(less, a[m], a[u])
    modifies a
    ensures l < i <= u - 1 && Shuffled(old(a[..]), a[..], l, u) && Around(less, a[..], l, i, i, u, a[i])
  {
    hide Shuffled, StrictWeak, Around, Le, Swapped;
    ghost var s0 := a[..];
    var P := a[m];
    PivotMoved(s0, l, m, u);
    SwappedIs(s0, l, u, m, u - 1);
    Swap(a, m, u - 1);
    ghost var s1 := a[..];
    assert a[u - 1] == s1[u - 1] && a[l] == s1[l] && a[u] == s1[u];
    i := Partition(a, less, l, u, P);
    ghost var s2 := a[..];
    PlacePivot(a, less, l, i, u, P);
    ShuffledTrans(s0, s1, s2, l, u);
    ShuffledTrans(s0, s2, a[..], l, u);
  }

  lemma ShortSorted<T(!new)>(less: Less<T>, s: seq<T>, l: int, u: int)
    requires Range(s, l, u) && StrictWeak(less) && u - l <= 2
    requires u - l == 1 ==> Le(less, s[l], s[u])
    requires u - l == 2 ==> Le(less, s[l], s[l + 1]) && Le(less, s[l + 1], s[u])
    ensures SortedIn(less, s, l, u)
  {
    forall x, y | l <= x <= y <= u ensures Le(less, s[x], s[y]) {
      if x == l && y == u && u - l == 2 { LeTrans(less, s[l], s[l + 1], s[u]); }
      PivotEqual(less, s[x]);
    }
  }

  /** A part that is placed apart from l..u stays so when l..u is worked on. */
  lemma StepKeeps<T(!new)>(less: Less<T>, s0: seq<T>, s: seq<T>, t: seq<T>, l0: int, u0: int, l: int, u: int)
    requires Shuffled(s0, s, l0, u0) && Placed(less, s, l0, u0, l, u) && Shuffled(s, t, l, u)
    ensures Shuffled(s0, t, l0, u0) && Placed(less, t, l0, u0, l, u)
  {
    PlacedStays(less, s, t, l0, u0, l, u);
    ShuffledWider(s, t, l, u, l0, u0);
    ShuffledTrans(s0, s, t, l0, u0);
  }

  /** The body of auxsort before the recursive call: parts of two and three elements are
      sorted, a longer one is divided around a pivot at i. */
  method Divide<T(!new)>(a: array<T>, less: Less<T>, l: int, u: int) returns (done: bool, i: int)
    requires StrictWeak(less) && 0 <= l < u < a.Length
    modifies a
    ensures Shuffled(old(a[..]), a[..], l, u) && (done ==> SortedIn(less, a[..], l, u))
    ensures !done ==> l + 3 <= u && l < i < u && Around(less, a[..], l, i, i, u, a[i])
  {
    hide Shuffled, StrictWeak, SortedIn, Around;
    ghost var s0 := a[..];
    i := (l + u) / 2;
    OrderEnds(a, less, l, u);
    done := u - l <= 2;
    if u - l == 1 {
      ShortSorted(less, a[..], l, u);
      return;
    }
    ghost var s1 := a[..];
    OrderMiddle(a, less, l, i, u);
    ghost var s2 := a[..];
    ShuffledTrans(s0, s1, s2, l, u);
    if u - l == 2 {
      ShortSorted(less, a[..], l, u);
      return;
    }
    i := Split(a, less, l, i, u);
    ShuffledTrans(s0, s2, a[..], l, u);
  }

  /** auxsort: the part from l0 to u0 is sorted; `depth` is how deep the calls nest, this one
      included. It is at most d + 1 when the size plus one is less than two to the d + 1. */
  method AuxSort<T(!new)>(a: array<T>, less: Less<T>, l0: int, u0: int, ghost d: nat) returns (ghost depth: nat)
    requires StrictWeak(less) && 0 <= l0 <= u0 + 1 <= a.Length && u0 - l0 + 2 < Pow2(d + 1)
    modifies a
    ensures Shuffled(old(a[..]), a[..], l0, u0) && SortedIn(less, a[..], l0, u0) && 1 <= depth <= d + 1
    decreases d, 1
  {
    hide Shuffled, Placed, StrictWeak, SortedIn, Le, Pow2;
    ghost var s0 := a[..];
    depth := 1;
    var l, u := l0, u0;
    SortStart(less, s0, l0, u0);
    while l < u
      invariant l0 <= l <= u + 1 && u <= u0 && u - l + 2 < Pow2(d + 1)
      invariant Shuffled(s0, a[..], l0, u0) && Placed(less, a[..], l0, u0, l, u) && 1 <= depth <= d + 1
      decreases u - l
    {
      ghost var s := a[..];
      var done, i := Divide(a, less, l, u);
      StepKeeps(less, s0, s, a[..], l0, u0, l, u);
      if done {
        PlacedSorted(less, a[..], l0, u0, l, u);
        return;
      }
      ghost var below;
      l, u, below := SortSmaller(a, less, l0, u0, l, i, u, s0, d);
      depth := if depth < below + 1 then below + 1 else depth;
    }
    ShortSorted(less, a[..], l, u);
    PlacedSorted(less, a[..], l0, u0, l, u);
  }

  /** The recursive call of auxsort: the smaller half is sorted, the larger one is left. */
  method SortSmaller<T(!new)>(a: array<T>, less: Less<T>, ghost l0: int, ghost u0: int, l: int, i: int, u: int,
      ghost s0: seq<T>, ghost d: nat)
    returns (l': int, u': int, ghost below: nat)
    requires StrictWeak(less) && 0 <= l < i < u < a.Length && u - l + 2 < Pow2(d + 1)
    requires Shuffled(s0, a[..], l0, u0) && Placed(less, a[..], l0, u0, l, u) && Around(less, a[..], l, i, i, u, a[i])
    modifies a
    ensures Shuffled(s0, a[..], l0, u0) && Placed(less, a[..], l0, u0, l', u')
    ensures l <= l' <= u' + 1 && u' <= u && u' - l' < u - l && below <= d
    decreases d, 0
  {
    PlacedRange(less, a[..], l0, u0, l, u);
    hide Shuffled, Placed, StrictWeak, SortedIn, Around, Le, Pow2, Parted;
    PivotPlaced(less, a[..], l0, u0, l, i, u);
    ghost var s := a[..];
    // the smaller half is in j..k, the larger one in l'..u'
    var j, k;
    if i - l < u - i {
      j, k, l', u' := l, i - 1, i + 1, u;
    } else {
      j, k, l', u' := i + 1, u, l, i - 1;
    }
    Halves(d, j, k);
    below := AuxSort(a, less, j, k, d - 1);
    AfterHalf(less, s0, s, a[..], l0, u0, l, i, u, j, k, l', u');
  }

  lemma PlacedRange<T(!new)>(less: Less<T>, s: seq<T>, l0: int, u0: int, l: int, u: int)
    requires Placed(less, s, l0, u0, l, u)
    ensures Range(s, l0, u0) && l0 <= l && u <= u0
  {
  }

  lemma SortStart<T(!new)>(less: Less<T>, s: seq<T>, l: int, u: int)
    requires Range(s, l, u)
    ensures Shuffled(s, s, l, u) && Placed(less, s, l, u, l, u)
  {
  }

  lemma Halves(d: nat, j: int, i: int)
    requires 2 * (i - j + 1) + 2 < Pow2(d + 1)
    requires i >= j - 1
    ensures d > 0 && i - j + 2 < Pow2(d)
  {
  }

  lemma AfterHalf<T(!new)>(less: Less<T>, s0: seq<T>, s: seq<T>, t: seq<T>, l0: int, u0: int, l: int, i: int, u: int,
      j: int, k: int, l': int, u': int)
    requires Shuffled(s0, s, l0, u0) && Range(s, l0, u0) && Parted(less, s, l0, u0, l, i, u) && Shuffled(s, t, j, k)
        && SortedIn(less, t, j, k)
    requires (j == l && k == i - 1 && l' == i + 1 && u' == u) || (j == i + 1 && k == u && l' == l && u' == i - 1)
    ensures Shuffled(s0, t, l0, u0) && Placed(less, t, l0, u0, l', u')
  {
    HalfPlaced(less, s, t, l0, u0, l, i, u, j == l);
    ShuffledWider(s, t, j, k, l0, u0);
    ShuffledTrans(s0, s, t, l0, u0);
  }

  function FloorLog2(n: nat): (d: nat)
    requires n > 0
    ensures Pow2(d) <= n < Pow2(d + 1)
  {
    if n == 1 then 0 else 1 + FloorLog2(n / 2)
  }

  /** table.sort: a sorted permutation, with calls that nest at most 1 + log2(n + 1) deep. */
  method Sort<T(!new)>(a: array<T>, less: Less<T>) returns (ghost depth: nat)
    requires StrictWeak(less)
    modifies a
    ensures multiset(a[..]) == multiset(old(a[..]))
    ensures forall x, y :: 0 <= x <= y < a.Length ==> Le(less, a[x], a[y])
    ensures depth <= 1 + FloorLog2(a.Length + 1)
  {
    depth := AuxSort(a, less, 0, a.Length - 1, FloorLog2(a.Length + 1));
    assert a[0..a.Length] == a[..] && old(a[..])[0..a.Length] == old(a[..]);
  }
}
