/** Tables: an array part and a hash part that together agree with one map (ltable.c). */
module LTable {
  import opened Common
  import opened TableNodes
  import opened TableSizes
  import opened TableCounts

  /** Where a value is stored; luaO_nilobject stands for a key that is not there. */
  datatype Loc = NilObject | InArray(i: nat) | InNode(j: nat)

  datatype Error = NilIndex | Overflow

  datatype Result = Ok | Err(error: Error)

  /** No key of the hash part belongs to the array part. */
  ghost predicate Apart(n: nat, ns: seq<Node>) {
    forall j :: 0 <= j < |ns| ==> !Within(ns[j].key, n)
  }

  ghost predicate TableOk(a: seq<Value>, ns: seq<Node>, lastfree: int, dummy: bool, rank: seq<real>, hash: Hash) {
    && Sound(ns, rank, hash) && Apart(|a|, ns) && |a| < INT_MAX && |ns| <= MAXASIZE
    && (dummy ==> ns == [EMPTY] && lastfree <= 0)
    && (!dummy ==> Taken(ns, lastfree))
  }

  /** The value of a key. */
  ghost function Lookup(a: seq<Value>, ns: seq<Node>, k: Value): Value {
    if Within(k, |a|) then a[k.i - 1] else ValueIn(ns, k)
  }

  ghost function Keys(a: seq<Value>, ns: seq<Node>): set<Value> {
    ArrayKeys(a, 0) + HashKeys(ns)
  }

  /** How many keys the hash part can take. */
  function Capacity(ns: seq<Node>, dummy: bool): nat {
    if dummy then 0 else |ns|
  }

  predicate LocOf(loc: Loc, a: seq<Value>, ns: seq<Node>, dummy: bool, k: Value) {
    match loc
    case NilObject => false
    case InArray(i) => i < |a| && k == Int(i + 1)
    case InNode(j) => j < |ns| && ns[j].key == k && k != Nil && !dummy
  }

  ghost predicate SameValues(a: seq<Value>, ns: seq<Node>, a': seq<Value>, ns': seq<Node>) {
    forall k :: Lookup(a', ns', k) == Lookup(a, ns, k)
  }

  ghost predicate OneChanged(a: seq<Value>, ns: seq<Node>, a': seq<Value>, ns': seq<Node>, k: Value, v: Value) {
    forall x :: Lookup(a', ns', x) == if x == k then v else Lookup(a, ns, x)
  }

  /** Only the array part has changed: it may be longer. */
  ghost predicate Grown(a: seq<Value>, ns: seq<Node>, a': seq<Value>, ns': seq<Node>) {
    ns' == ns && |a| <= |a'| && forall i :: 0 <= i < |a'| ==> a'[i] == if i < |a| then a[i] else Nil
  }

  // ----- what a rehash asks for -----

  /** The values of the array part that numusearray does not see. */
  ghost function Beyond(a: seq<Value>): set<Value> {
    ArrayKeys(a, MAXASIZE)
  }

  /** cap is the capacity of a hash part made for size keys. */
  ghost predicate RoomOf(size: nat, cap: nat) {
    if size == 0 then cap == 0 else exists e: nat :: Half(e) < size <= Pow2(e) && cap == Pow2(e)
  }

  /** A hash part made for size keys takes m keys. */
  ghost predicate Holds(m: nat, size: nat) {
    forall cap: nat :: RoomOf(size, cap) ==> m <= cap
  }

  /** What is left for the hash part when the array part has n slots: the keys, and the number
      that rehash computes. */
  ghost function HashShare(a: seq<Value>, ns: seq<Node>, k: Value, n: nat): nat {
    |Out(Keys(a, ns) + {k}, n)|
  }

  ghost predicate Asked(a: seq<Value>, ns: seq<Node>, k: Value, n: nat, size: int) {
    Optimal(Upto(Keys(a, ns) + {k}, MAXASIZE), n) && size == HashShare(a, ns, k, n) - |Beyond(a)|
  }

  /** The parts that rehash makes for another key k hold all keys. */
  ghost predicate Roomy(a: seq<Value>, ns: seq<Node>, k: Value) {
    forall n: nat, size: nat :: Asked(a, ns, k, n, size) ==> Holds(HashShare(a, ns, k, n), size)
  }

  /** More keys are left for the hash part than it may have nodes. */
  ghost predicate TooMany(a: seq<Value>, ns: seq<Node>, k: Value) {
    exists n: nat, size: int :: Asked(a, ns, k, n, size) && size > MAXASIZE
  }

  /** There is a node for a new key. */
  ghost predicate NodeLeft(ns: seq<Node>, dummy: bool, hash: Hash, k: Value) {
    !dummy && |ns| > 0 && (ns[MainPos(hash, k, |ns|)].val == Nil || exists j :: 0 <= j < |ns| && ns[j].key == Nil)
  }

  lemma HoldsItself(m: nat, size: nat)
    requires m <= size
    ensures Holds(m, size)
  {
  }

  lemma RoomUnique(size: nat, cap: nat, cap': nat)
    requires RoomOf(size, cap) && RoomOf(size, cap')
    ensures cap == cap'
  {
    if size > 0 {
      var e: nat :| Half(e) < size <= Pow2(e) && cap == Pow2(e);
      var e': nat :| Half(e') < size <= Pow2(e') && cap' == Pow2(e');
      SliceUnique(size, e, e');
    }
  }

  /** An array part whose values are all counted leaves room for everything. */
  lemma CountedRoomy(a: seq<Value>, ns: seq<Node>, k: Value)
    requires forall i :: MAXASIZE <= i < |a| ==> a[i] == Nil
    ensures Beyond(a) == {} && Roomy(a, ns, k)
  {
    assert Beyond(a) == {};
    forall n: nat, size: nat | Asked(a, ns, k, n, size) ensures Holds(HashShare(a, ns, k, n), size) {
      HoldsItself(HashShare(a, ns, k, n), size);
    }
  }

  /** Exactly when there is room: the power of two that is allocated has to take the uncounted
      values as well. */
  lemma RoomyIff(a: seq<Value>, ns: seq<Node>, k: Value, n: nat, size: nat, cap: nat)
    requires Asked(a, ns, k, n, size) && RoomOf(size, cap)
    ensures Roomy(a, ns, k) <==> size + |Beyond(a)| <= cap
  {
    hide Optimal, RoomOf;
    forall n': nat, size': nat | Asked(a, ns, k, n', size') ensures n' == n && size' == size {
      OptimalUnique(Upto(Keys(a, ns) + {k}, MAXASIZE), n, n');
    }
    forall cap': nat | RoomOf(size, cap') ensures cap' == cap { RoomUnique(size, cap, cap'); }
    assert HashShare(a, ns, k, n) == size + |Beyond(a)|;
    if size + |Beyond(a)| <= cap { assert Holds(HashShare(a, ns, k, n), size); }
  }

  /** An array part with more than 2^26 values and no other key has no room for a string. */
  lemma NoRoomBeyond(a: seq<Value>, k: Value)
    requires |a| > MAXASIZE && k.Str? && forall i :: 0 <= i < |a| ==> a[i] != Nil
    ensures !Roomy(a, [EMPTY], k)
  {
    var all := Keys(a, [EMPTY]) + {k};
    assert HashKeys([EMPTY]) == {};
    FullOptimal(a, all);
    assert a[MAXASIZE] != Nil && Int(MAXASIZE + 1) in Beyond(a);
    assert Out(all, MAXASIZE) == Beyond(a) + {k};
    assert Asked(a, [EMPTY], k, MAXASIZE, 1);
    assert Half(0) < 1 <= Pow2(0);
    assert RoomOf(1, 1);
    RoomyIff(a, [EMPTY], k, MAXASIZE, 1, 1);
  }

  lemma FullOptimal(a: seq<Value>, all: set<Value>)
    requires |a| > MAXASIZE && forall i :: 0 <= i < |a| ==> a[i] != Nil
    requires forall x :: x in all && x.Int? ==> x in ArrayKeys(a, 0)
    requires ArrayKeys(a, 0) <= all
    ensures Optimal(Upto(all, MAXASIZE), MAXASIZE)
  {
    var ks := Upto(all, MAXASIZE);
    forall i: nat | 1 <= i <= MAXASIZE ensures Int(i) in ks { assert a[i - 1] != Nil; }
    assert ks == Run(MAXASIZE);
    RunSize(MAXASIZE);
    Pow2Max();
    UptoUpto(all, MAXASIZE);
    assert Crowded(ks, MAXBITS);
    forall j: nat | Crowded(ks, j) ensures Pow2(j) <= MAXASIZE {
      Subset(Upto(ks, Pow2(j)), ks);
      if j > MAXBITS { Pow2Grows(MAXBITS, j); } else { Pow2Grows(j, MAXBITS); }
    }
  }

  /** ... and without room, no table with the parts that rehash makes can have values for all keys:
      the re-insertion would run out of nodes, and start another rehash. */
  lemma RoomNeeded(a: seq<Value>, ns: seq<Node>, k: Value, n: nat, size: nat, a': seq<Value>, ns': seq<Node>,
      dummy: bool)
    requires Asked(a, ns, k, n, size) && |a'| == n && RoomOf(size, Capacity(ns', dummy))
    requires (dummy ==> ns' == [EMPTY]) && !Roomy(a, ns, k)
    ensures !forall x :: x in Keys(a, ns) + {k} ==> Lookup(a', ns', x) != Nil
  {
    hide Optimal;
    var n': nat, size': nat :| Asked(a, ns, k, n', size') && !Holds(HashShare(a, ns, k, n'), size');
    OptimalUnique(Upto(Keys(a, ns) + {k}, MAXASIZE), n, n');
    var cap: nat :| RoomOf(size, cap) && HashShare(a, ns, k, n) > cap;
    RoomUnique(size, cap, Capacity(ns', dummy));
    if forall x :: x in Keys(a, ns) + {k} ==> Lookup(a', ns', x) != Nil {
      HashedThere(Keys(a, ns) + {k}, a', ns', dummy);
    }
  }

  lemma HashedThere(ks: set<Value>, a: seq<Value>, ns: seq<Node>, dummy: bool)
    requires (dummy ==> ns == [EMPTY]) && forall x :: x in ks ==> Lookup(a, ns, x) != Nil
    ensures |Out(ks, |a|)| <= Capacity(ns, dummy)
  {
    forall x | x in Out(ks, |a|) ensures x in HashKeys(ns) { LiveHere(ns, x); }
    Subset(Out(ks, |a|), HashKeys(ns));
    HashBound(ns);
    if dummy { assert HashKeys(ns) == {}; }
  }

  /** A "table overflow" loses nothing: when the array part has grown, every node holds a key that
      stays in the hash part. */
  lemma OverflowKeeps(a: seq<Value>, ns: seq<Node>, a': seq<Value>, ns': seq<Node>, k: Value, n: nat, size: int,
      lastfree: int, dummy: bool, rank: seq<real>, hash: Hash)
    requires TableOk(a, ns, lastfree, dummy, rank, hash) && Grown(a, ns, a', ns')
    requires Asked(a, ns, k, n, size) && size > MAXASIZE && |a'| == if |a| < n then n else |a|
    ensures SameValues(a, ns, a', ns') && TableOk(a', ns', lastfree, dummy, rank, hash)
  {
    OptimalFits(Upto(Keys(a, ns) + {k}, MAXASIZE), n);
    if |a| < n {
      forall j | 0 <= j < |ns| ensures !Within(ns[j].key, n) {
        if Within(ns[j].key, n) { FewerOut(a, ns, k, n, j); }
      }
      hide Sound, Taken;
      forall x ensures Lookup(a', ns', x) == Lookup(a, ns, x) {
        if Within(x, n) && !Within(x, |a|) {
          forall j ensures !HasKey(ns, x, j) {}
          NoValue(ns, x);
        }
      }
    } else {
      assert a' == a;
    }
  }

  /** A node whose key belongs to the array part is one node less for the others. */
  lemma FewerOut(a: seq<Value>, ns: seq<Node>, k: Value, n: nat, j: nat)
    requires j < |ns| && Within(ns[j].key, n) && |a| <= n
    ensures HashShare(a, ns, k, n) <= |ns|
  {
    var others := ns[..j] + ns[j + 1..];
    forall x | x in Out(Keys(a, ns) + {k}, n) ensures x in HashKeys(others) + {k} {
      if x != k {
        var i: nat :| i < |ns| && ns[i].val != Nil && ns[i].key == x;
        assert others[if i < j then i else i - 1] == ns[i];
      }
    }
    Subset(Out(Keys(a, ns) + {k}, n), HashKeys(others) + {k});
    HashBound(others);
  }

  // ----- facts about the parts -----

  lemma NodesOf(a: seq<Value>, ns: seq<Node>, lastfree: int, dummy: bool, rank: seq<real>, hash: Hash)
    requires TableOk(a, ns, lastfree, dummy, rank, hash)
    ensures Sound(ns, rank, hash) && |ns| > 0 && Linked(ns, rank) && LinksOk(ns) && KeysOk(ns) && Apart(|a|, ns)
        && |a| < INT_MAX && |ns| <= MAXASIZE
    ensures dummy ==> ns == [EMPTY]
    ensures !dummy ==> Taken(ns, lastfree)
  {
  }

  lemma LookupAt(a: seq<Value>, ns: seq<Node>, k: Value, loc: Loc, dummy: bool)
    requires KeysOk(ns) && Apart(|a|, ns) && LocOf(loc, a, ns, dummy, k)
    ensures Lookup(a, ns, k) == match loc { case InArray(i) => a[i] case InNode(j) => ns[j].val }
  {
    if loc.InNode? {
      assert HasKey(ns, k, loc.j);
      ValueAt(ns, k, loc.j);
    }
  }

  /** A value is written where a key is. */
  lemma StoreNodeOk(a: seq<Value>, ns: seq<Node>, lastfree: int, dummy: bool, rank: seq<real>, hash: Hash, j: nat,
      v: Value)
    requires TableOk(a, ns, lastfree, dummy, rank, hash) && j < |ns| && ns[j].key != Nil
    ensures var ns' := ns[j := ns[j].(val := v)];
            TableOk(a, ns', lastfree, dummy, rank, hash) && OneChanged(a, ns, a, ns', ns[j].key, v)
                && Keyed(ns') == Keyed(ns)
  {
    hide Sound, ValueIn;
    StoreOk(ns, rank, hash, j, v);
    var ns' := ns[j := ns[j].(val := v)];
    assert forall i :: 0 <= i < |ns| ==> ns'[i].key == ns[i].key;
    assert !Within(ns[j].key, |a|);
    assert !dummy;
    assert Taken(ns', lastfree);
    assert Keyed(ns') == Keyed(ns);
    forall x ensures Lookup(a, ns', x) == if x == ns[j].key then v else Lookup(a, ns, x) {
      var before := ValueIn(ns, x);
    }
  }

  lemma StoreArrayOk(a: seq<Value>, ns: seq<Node>, lastfree: int, dummy: bool, rank: seq<real>, hash: Hash, i: nat,
      v: Value)
    requires TableOk(a, ns, lastfree, dummy, rank, hash) && i < |a|
    ensures TableOk(a[i := v], ns, lastfree, dummy, rank, hash) && OneChanged(a, ns, a[i := v], ns, Int(i + 1), v)
  {
  }

  lemma InsertedKeyed(ns: seq<Node>, ns': seq<Node>, n: nat, lastfree: int)
    requires |ns'| == |ns| && n < |ns| && ns'[n].key != Nil && Taken(ns, lastfree)
    requires forall j :: 0 <= j < |ns| && j != n ==> (ns'[j].key == Nil <==> ns[j].key == Nil)
    ensures |Keyed(ns')| <= |Keyed(ns)| + 1 && Taken(ns', lastfree)
  {
    KeyedOne(ns, ns', n);
  }

  lemma SameLookups(a: seq<Value>, ns: seq<Node>, ns': seq<Node>)
    requires forall x :: ValueIn(ns', x) == ValueIn(ns, x)
    ensures SameValues(a, ns, a, ns')
  {
  }

  ghost predicate Absentee(ns: seq<Node>, k: Value) {
    !exists j :: HasKey(ns, k, j)
  }

  /** The three ways a new key gets its node. */
  lemma OverwriteTable(a: seq<Value>, ns: seq<Node>, lastfree: int, rank: seq<real>, hash: Hash, mp: nat, k: Value)
    requires TableOk(a, ns, lastfree, false, rank, hash) && mp < |ns| && ns[mp].val == Nil && k != Nil
        && MainPos(hash, k, |ns|) == mp
    requires Absentee(ns, k) && !Within(k, |a|)
    ensures var ns' := ns[mp := Node(Nil, k, ns[mp].next)];
            TableOk(a, ns', lastfree, false, rank, hash) && SameValues(a, ns, a, ns') && |Keyed(ns')| <= |Keyed(ns)| + 1
  {
    hide Sound, ValueIn, SameValues, Taken, MainPos;
    var ns' := ns[mp := Node(Nil, k, ns[mp].next)];
    OverwriteOk(ns, rank, hash, mp, k);
    InsertedKeyed(ns, ns', mp, lastfree);
    SameLookups(a, ns, ns');
  }

  lemma ChainTable(a: seq<Value>, ns: seq<Node>, lastfree: int, rank: seq<real>, hash: Hash, mp: nat, n: nat, k: Value)
    requires TableOk(a, ns, lastfree, false, rank, hash) && mp < |ns| && n < |ns| && ns[mp].key != Nil
        && ns[n].key == Nil && k != Nil
    requires MainPos(hash, k, |ns|) == mp && MainPos(hash, ns[mp].key, |ns|) == mp && Absentee(ns, k) && !Within(k, |a|)
    requires Linked(ns, rank) && lastfree == n + 1
    ensures var ns' := Chained(ns, mp, n, k);
            TableOk(a, ns', n, false, rank[n := RankBetween(ns, rank, mp)], hash) && SameValues(a, ns, a, ns')
                && |Keyed(ns')| <= |Keyed(ns)| + 1
  {
    hide Sound, ValueIn, SameValues, Taken, MainPos, Linked, RankBetween;
    var ns' := Chained(ns, mp, n, k);
    RankSize(ns, rank);
    ChainOk(ns, rank, hash, mp, n, k);
    KeyedOne(ns, ns', n);
    SameLookups(a, ns, ns');
  }

  lemma RankSize(ns: seq<Node>, rank: seq<real>)
    requires Linked(ns, rank)
    ensures |rank| == |ns|
  {
  }

  lemma MoveTable(a: seq<Value>, ns: seq<Node>, lastfree: int, rank: seq<real>, hash: Hash, mp: nat, prev: nat, n: nat,
      k: Value)
    requires TableOk(a, ns, lastfree, false, rank, hash) && mp < |ns| && prev < |ns| && n < |ns| && ns[mp].key != Nil
        && ns[n].key == Nil && k != Nil
    requires MainPos(hash, k, |ns|) == mp && MainPos(hash, ns[mp].key, |ns|) != mp && ns[prev].next == mp
        && Absentee(ns, k) && !Within(k, |a|)
    requires Linked(ns, rank) && lastfree == n + 1 && mp != prev && n != prev
    ensures var ns' := Moved(ns, mp, prev, n, k);
            TableOk(a, ns', n, false, rank[n := rank[mp]], hash) && SameValues(a, ns, a, ns')
                && |Keyed(ns')| <= |Keyed(ns)| + 1
  {
    hide Sound, ValueIn, SameValues, Taken, MainPos, Linked;
    var ns' := Moved(ns, mp, prev, n, k);
    RankSize(ns, rank);
    MoveOk(ns, rank, hash, mp, prev, n, k);
    KeyedOne(ns, ns', n);
    SameLookups(a, ns, ns');
  }

  // ----- empty parts -----

  function Empties(n: nat): (ns: seq<Node>)
    ensures |ns| == n && forall j :: 0 <= j < n ==> ns[j] == EMPTY
  {
    seq(n, j => EMPTY)
  }

  ghost function Zeros(n: nat): (r: seq<real>)
    ensures |r| == n
  {
    seq(n, j => 0.0)
  }

  lemma EmptyOk(a: seq<Value>, n: nat, dummy: bool, hash: Hash)
    requires 0 < n <= MAXASIZE && |a| < INT_MAX && (dummy ==> n == 1)
    ensures TableOk(a, Empties(n), if dummy then 0 else n, dummy, Zeros(n), hash) && Keyed(Empties(n)) == {}
    ensures forall k :: Lookup(a, Empties(n), k) == Lookup(a, [], k)
  {
    forall k ensures ValueIn(Empties(n), k) == Nil {
      NoKeys(n, k);
    }
    assert dummy ==> Empties(1) == [EMPTY];
  }

  lemma NoKeys(n: nat, k: Value)
    ensures ValueIn(Empties(n), k) == Nil
  {
    if k != Nil {
      forall j ensures !HasKey(Empties(n), k, j) {}
    }
  }

  class Table {
    const hash: Hash
    var slots: array<Value>   // the array part
    var node: array<Node>     // the hash part
    var lastfree: int         // any free position is before this one
    var dummy: bool           // the hash part is the common empty node
    ghost var rank: seq<real>

    ghost predicate Valid()
      reads this, slots, node
    {
      TableOk(slots[..], node[..], lastfree, dummy, rank, hash)
    }

    ghost function ValueOf(k: Value): Value
      reads this, slots, node
    {
      Lookup(slots[..], node[..], k)
    }

    // ----- search -----

    /** The loop of the search functions: along the chain of the main position. */
    method WalkChain(k: Value) returns (j: int)
      requires Valid() && k != Nil
      ensures j == -1 ==> Absentee(node[..], k)
      ensures j != -1 ==> HasKey(node[..], k, j)
    {
      hide Sound, OnChain, TableOk, MainPos;
      ghost var ns := node[..];
      NodesOf(slots[..], ns, lastfree, dummy, rank, hash);
      ghost var mp := MainPos(hash, k, |ns|);
      var n := MainPos(hash, k, node.Length);
      while true
        invariant 0 <= n < node.Length
        invariant forall i: nat :: i < |ns| && OnChain(ns, rank, mp, i) && ns[i].key == k ==> OnChain(ns, rank, n, i)
        decreases Above(rank, n)
      {
        if node[n].key == k { return n; }
        NextOnChain(ns, rank, n);
        if node[n].next == -1 { break; }
        n := node[n].next;
      }
      forall i: nat | i < |ns| && OnChain(ns, rank, mp, i) ensures ns[i].key != k {
        NextOnChain(ns, rank, n);
      }
      Absent(ns, rank, hash, k);
      j := -1;
    }

    /** luaH_get: where the value of a key is. */
    method Find(k: Value) returns (loc: Loc)
      requires Valid()
      ensures loc.NilObject? ==> ValueOf(k) == Nil && (k == Nil || (Absentee(node[..], k) && !Within(k, slots.Length)))
      ensures !loc.NilObject? ==> LocOf(loc, slots[..], node[..], dummy, k)
    {
      hide TableOk, ValueIn, HasKey;
      NodesOf(slots[..], node[..], lastfree, dummy, rank, hash);
      if k == Nil {
        NilValue(node[..]);
        return NilObject;
      }
      ArrayIndexWithin(k, slots.Length);
      var i := ArrayIndex(k);
      if 1 <= i <= slots.Length { return InArray(i - 1); }
      var j := WalkChain(k);
      if j == -1 {
        NoValue(node[..], k);
        return NilObject;
      }
      FoundNode(node[..], dummy, k, j);
      loc := InNode(j);
    }

    /** luaH_get and the value found there. */
    method Get(k: Value) returns (v: Value)
      requires Valid()
      ensures v == ValueOf(k)
    {
      hide TableOk, Lookup;
      NodesOf(slots[..], node[..], lastfree, dummy, rank, hash);
      var loc := Find(k);
      match loc {
        case NilObject => v := Nil;
        case InArray(i) =>
          LookupAt(slots[..], node[..], k, loc, dummy);
          v := slots[i];
        case InNode(j) =>
          LookupAt(slots[..], node[..], k, loc, dummy);
          v := node[j].val;
      }
    }

    /** A value is written where luaH_set found or made the key. */
    method Store(loc: Loc, ghost k: Value, v: Value)
      requires Valid() && LocOf(loc, slots[..], node[..], dummy, k)
      modifies slots, node
      ensures Valid() && OneChanged(old(slots[..]), old(node[..]), slots[..], node[..], k, v)
      ensures Keyed(node[..]) == Keyed(old(node[..]))
    {
      hide TableOk, OneChanged;
      match loc {
        case InArray(i) =>
          StoreArrayOk(slots[..], node[..], lastfree, dummy, rank, hash, i, v);
          slots[i] := v;
        case InNode(j) =>
          StoreNodeOk(slots[..], node[..], lastfree, dummy, rank, hash, j, v);
          node[j] := node[j].(val := v);
        case NilObject =>
      }
    }

    // ----- insertion -----

    /** getfreepos: the free pointer only moves down. */
    method GetFreePos() returns (n: int)
      requires Valid()
      modifies this`lastfree
      ensures n == -1 ==> (dummy || forall j :: 0 <= j < node.Length ==> node[j].key != Nil)
      ensures n != -1 ==> !dummy && 0 <= n < node.Length && node[n].key == Nil && lastfree == n
      ensures n == -1 ==> Valid()
      ensures n != -1 ==> TableOk(slots[..], node[..], n + 1, dummy, rank, hash)
      ensures lastfree <= old(lastfree)
    {
      hide Sound;
      while true
        invariant Valid() && lastfree <= old(lastfree)
        decreases lastfree
      {
        var more := lastfree > 0;
        lastfree := lastfree - 1;
        if !more { return -1; }
        if node[lastfree].key == Nil { return lastfree; }
      }
    }

    /** The node before mp in its chain. */
    method Previous(othern: nat, mp: nat) returns (prev: nat)
      requires othern < node.Length && mp < node.Length && othern != mp
      requires Linked(node[..], rank) && OnChain(node[..], rank, othern, mp)
      ensures prev < node.Length && node[prev].next == mp && prev != mp
    {
      hide TableOk;
      ghost var ns := node[..];
      prev := othern;
      NextOnChain(ns, rank, prev);
      while node[prev].next != mp
        invariant prev < node.Length && OnChain(ns, rank, prev, mp) && prev != mp
        decreases Above(rank, prev)
      {
        NextOnChain(ns, rank, prev);
        prev := node[prev].next;
        NextOnChain(ns, rank, prev);
      }
      assert rank[mp] > rank[prev];
    }

    /** newkey when a place is left: the three ways of the chained scatter table. */
    method PlaceKey(k: Value, n: int) returns (j: nat)
      requires !dummy && k != Nil && !Within(k, slots.Length) && Absentee(node[..], k) && node.Length > 0
      requires var mp := MainPos(hash, k, node.Length);
               if node[mp].val == Nil then Valid()
               else
                 && 0 <= n < node.Length && node[n].key == Nil && lastfree == n
                 && TableOk(slots[..], node[..], n + 1, dummy, rank, hash)
      modifies this`rank, node
      ensures Valid() && j < node.Length && node[j].key == k && node[j].val == Nil
      ensures SameValues(old(slots[..]), old(node[..]), slots[..], node[..])
          && |Keyed(node[..])| <= |Keyed(old(node[..]))| + 1
    {
      hide Sound, ValueIn, SameValues, Taken, MainPos, RankBetween, HasKey, Keyed, TableOk, Absentee, Within, Linked,
          LinksOk, KeysOk, Apart, OnChain, Moved, Chained;
      ghost var a, ns := slots[..], node[..];
      var mp := MainPos(hash, k, node.Length);
      if node[mp].val == Nil {
        OverwriteTable(a, ns, lastfree, rank, hash, mp, k);
        node[mp] := Node(Nil, k, node[mp].next);
        return mp;
      }
      NodesOf(a, ns, n + 1, dummy, rank, hash);
      Colliding(ns, rank, hash, mp);
      var othern := MainPos(hash, node[mp].key, node.Length);
      if othern != mp {
        var prev := Previous(othern, mp);
        FreeHasNoNext(ns, n, prev, mp);
        RankSize(ns, rank);
        MoveTable(a, ns, n + 1, rank, hash, mp, prev, n, k);
        MoveNode(mp, prev, n, k);
        j := mp;
        MovedKey(ns, mp, prev, n, k);
      } else {
        ChainTable(a, ns, n + 1, rank, hash, mp, n, k);
        ChainNode(mp, n, k);
        j := n;
        ChainedKey(ns, mp, n, k);
      }
    }

    /** The colliding node moves to the free place, and the new key takes its own. */
    method MoveNode(mp: nat, prev: nat, n: nat, k: Value)
      requires mp < node.Length && prev < node.Length && n < node.Length && mp != prev && n != prev && n != mp
          && |rank| == node.Length
      modifies this`rank, node
      ensures node[..] == Moved(old(node[..]), mp, prev, n, k) && rank == old(rank)[n := old(rank)[mp]]
    {
      rank := rank[n := rank[mp]];
      node[prev] := node[prev].(next := n);
      node[n] := node[mp];
      node[mp] := Node(Nil, k, -1);
    }

    /** The new key goes to the free place, after the colliding node. */
    method ChainNode(mp: nat, n: nat, k: Value)
      requires mp < node.Length && n < node.Length && mp != n && Linked(node[..], rank)
      modifies this`rank, node
      ensures node[..] == Chained(old(node[..]), mp, n, k)
          && rank == old(rank)[n := RankBetween(old(node[..]), old(rank), mp)]
    {
      rank := rank[n := RankBetween(node[..], rank, mp)];
      node[n] := Node(Nil, k, node[mp].next);
      node[mp] := node[mp].(next := n);
    }

    // ----- new sizes -----

    /** setarrayvector when the array part grows. */
    method GrowArray(n: nat)
      requires slots.Length <= n
      modifies this`slots
      ensures fresh(slots) && slots.Length == n && forall i :: 0 <= i < n ==>
          slots[i] == if i < old(slots).Length then old(slots[..])[i] else Nil
    {
      var a, b := slots, new Value[n](i => Nil);
      var i := 0;
      while i < a.Length
        invariant 0 <= i <= a.Length && a[..] == old(slots[..]) && forall j :: 0 <= j < n ==>
            b[j] == if j < i then a[j] else Nil
      {
        b[i] := a[i];
        i := i + 1;
      }
      slots := b;
    }

    /** The array part shrinks to its first n slots. */
    method ShrinkArray(n: nat)
      requires n <= slots.Length
      modifies this`slots
      ensures fresh(slots) && slots[..] == old(slots[..])[..n]
    {
      var a, b := slots, new Value[n](i => Nil);
      var i := 0;
      while i < n
        invariant 0 <= i <= n && a[..] == old(slots[..]) && forall j :: 0 <= j < i ==> b[j] == a[j]
      {
        b[i] := a[i];
        i := i + 1;
      }
      slots := b;
    }

    /** setnodevector: a new hash part, or the common empty node; too many nodes are an error. */
    method SetNodeVector(size: nat) returns (ok: bool)
      requires slots.Length < INT_MAX
      modifies this`node, this`rank, this`lastfree, this`dummy
      ensures ok <==> size <= 0x400_0000
      ensures !ok ==> node == old(node) && rank == old(rank) && lastfree == old(lastfree) && dummy == old(dummy)
      ensures ok ==>
          fresh(node) && Valid() && node[..] == Empties(node.Length) && Keyed(node[..]) == {}
          && RoomOf(size, Capacity(node[..], dummy))
    {
      hide TableOk, Keyed, Pow2;
      SizeFits(0, 0);
      if size == 0 {
        node := new Node[1](i => EMPTY);
        dummy := true;
        lastfree := 0;
        rank := Zeros(1);
        EmptyOk(slots[..], 1, true, hash);
        assert node[..] == Empties(1);
        return true;
      }
      var lsize := CeilLog2(size);
      SizeFits(size, lsize);
      if lsize > MAXBITS { return false; }
      assert RoomOf(size, Pow2(lsize));
      var n := TwoTo(lsize);
      node := new Node[n](i => EMPTY);
      dummy := false;
      lastfree := n;
      rank := Zeros(n);
      EmptyOk(slots[..], n, false, hash);
      assert node[..] == Empties(n);
      ok := true;
    }

    // ----- luaH_set, newkey, rehash and resize call each other, but a rehash never nests -----

    /** A key can be set without a rehash inside a rehash: it is there, there is a node for it, or
        the parts that a rehash makes hold all keys. */
    ghost predicate Settable(k: Value)
      reads this, slots, node
    {
      || k == Nil || Within(k, slots.Length) || !Absentee(node[..], k) || NodeLeft(node[..], dummy, hash, k)
      || Roomy(slots[..], node[..], k)
    }

    /** luaH_set: the place of a key, which is made when it is not there. Inside a rehash there
        is always room, so that no second rehash starts. */
    method SetSlot(k: Value, ghost nested: bool) returns (r: Result, loc: Loc)
      requires Valid()
          && (nested ==> k != Nil && (Within(k, slots.Length) || |Keyed(node[..])| < Capacity(node[..], dummy)))
      requires !nested ==> Settable(k)
      modifies this, node, slots
      ensures Valid() && SameValues(old(slots[..]), old(node[..]), slots[..], node[..])
      ensures r == Err(NilIndex) <==> k == Nil
      ensures r.Ok? ==> LocOf(loc, slots[..], node[..], dummy, k)
      ensures nested ==>
          r.Ok? && slots == old(slots) && node == old(node) && slots[..] == old(slots[..]) && dummy == old(dummy)
      ensures nested ==> |Keyed(node[..])| <= |Keyed(old(node[..]))| + if Within(k, slots.Length) then 0 else 1
      ensures r == Err(Overflow) ==> TooMany(old(slots[..]), old(node[..]), k) && old(ValueOf(k)) == Nil
      ensures slots.Length <= MAXASIZE || slots.Length == old(slots).Length
      ensures (slots == old(slots) || fresh(slots)) && (node == old(node) || fresh(node))
      decreases !nested, 3
    {
      hide TableOk, SameValues, Lookup, Keyed, Absentee, ValueIn, Keys, TooMany, Roomy, NodeLeft;
      SameRefl(slots[..], node[..]);
      loc := Find(k);
      if !loc.NilObject? {
        NotNil(loc, slots[..], node[..], dummy, k);
        return Ok, loc;
      }
      if k == Nil { return Err(NilIndex), loc; }
      r, loc := NewKey(k, nested);
    }

    /** newkey. */
    method NewKey(k: Value, ghost nested: bool) returns (r: Result, loc: Loc)
      requires Valid() && k != Nil && !Within(k, slots.Length) && Absentee(node[..], k)
      requires nested ==> |Keyed(node[..])| < Capacity(node[..], dummy)
      requires !nested ==> NodeLeft(node[..], dummy, hash, k) || Roomy(slots[..], node[..], k)
      modifies this, node, slots
      ensures r == Ok || r == Err(Overflow)
      ensures Valid() && SameValues(old(slots[..]), old(node[..]), slots[..], node[..])
      ensures r.Ok? ==> LocOf(loc, slots[..], node[..], dummy, k)
      ensures nested ==>
          r.Ok? && slots == old(slots) && node == old(node) && slots[..] == old(slots[..]) && dummy == old(dummy)
      ensures nested ==> |Keyed(node[..])| <= |Keyed(old(node[..]))| + 1
      ensures r == Err(Overflow) ==> TooMany(old(slots[..]), old(node[..]), k)
      ensures slots.Length <= MAXASIZE || slots.Length == old(slots).Length
      ensures (slots == old(slots) || fresh(slots)) && (node == old(node) || fresh(node))
      decreases !nested, 2
    {
      hide TableOk, SameValues, Lookup, Keyed, Absentee, ValueIn, Keys, MainPos, Within, TooMany, Roomy;
      ghost var a0, ns0 := slots[..], node[..];
      NodesOf(a0, ns0, lastfree, dummy, rank, hash);
      var mp := MainPos(hash, k, node.Length);
      var n := -1;
      if node[mp].val != Nil || dummy {
        n := GetFreePos();
        if n == -1 {
          NoRoom(node[..], dummy);
          r := Rehash(k);
          if r.Ok? {
            ghost var a1, ns1 := slots[..], node[..];
            r, loc := SetSlot(k, true);
            SameTrans(a0, ns0, a1, ns1, slots[..], node[..]);
          } else {
            loc := NilObject;
          }
          return;
        }
      }
      var j := PlaceKey(k, n);
      r, loc := Ok, InNode(j);
    }

    /** rehash counts all keys and the new one. */
    method CountKeys(k: Value, nums: array<nat>) returns (nasize: nat, totaluse: nat)
      requires Valid() && k != Nil && !Within(k, slots.Length) && Absentee(node[..], k)
      requires Counts(nums[..], {})
      modifies nums
      ensures var first := FirstKeys(slots[..], MAXASIZE);
              && Counts(nums[..], first + HashKeys(node[..]) + {k})
              && nasize == |first| + |Upto(HashKeys(node[..]), MAXASIZE)| + (if Within(k, MAXASIZE) then 1 else 0)
              && totaluse == |first| + |HashKeys(node[..])| + 1
    {
      hide TableOk, Absentee, Within, Counts, Upto, HashKeys, FirstKeys, KeysOk, Apart, Sound, Taken, LinksOk, Linked;
      ghost var a, ns := slots[..], node[..];
      NodesOf(a, ns, lastfree, dummy, rank, hash);
      SeenApart(a, ns, k);
      nasize := NumUseArray(slots, nums);
      totaluse := nasize;
      var hashuse, hashint := NumUseHash(node, nums, FirstKeys(a, MAXASIZE));
      totaluse, nasize := totaluse + hashuse, nasize + hashint;
      var c := CountInt(k, nums, FirstKeys(a, MAXASIZE) + HashKeys(ns));
      nasize, totaluse := nasize + c, totaluse + 1;
    }

    /** The first half of rehash: the keys are counted, and the new sizes computed. */
    method NewSizes(k: Value) returns (n: nat, size: nat)
      requires Valid() && k != Nil && !Within(k, slots.Length) && Absentee(node[..], k)
      requires Roomy(slots[..], node[..], k)
      ensures n <= MAXASIZE && Asked(slots[..], node[..], k, n, size)
      ensures Holds(|Out(Keys(slots[..], node[..]), n)|, size) && Holds(HashShare(slots[..], node[..], k, n), size)
      ensures Within(k, n) || HashShare(slots[..], node[..], k, n) == |Out(Keys(slots[..], node[..]), n)| + 1
      ensures TooMany(slots[..], node[..], k) <==> size > MAXASIZE
    {
      hide TableOk, Lookup, Absentee, ValueIn, Within, Counts, Optimal, Upto, Keys, ArrayKeys, HashKeys, FirstKeys,
          KeysOk, Candidates, Holds, Roomy, TooMany, Asked, HashShare, Out, Apart, Sound, Taken, LinksOk, Linked,
          Beyond;
      ghost var a, ns := slots[..], node[..];
      NodesOf(a, ns, lastfree, dummy, rank, hash);
      var nums := new nat[MAXBITS + 1](i => 0);
      NoCounts(nums[..]);
      var nasize, totaluse := CountKeys(k, nums);
      SeenCounts(a, ns, k, nums[..]);
      var na;
      na, n := ComputeSizes(nums, nasize, Upto(FirstKeys(a, MAXASIZE) + HashKeys(ns) + {k}, MAXASIZE));
      Planned(a, ns, k, n, totaluse, na);
      size := totaluse - na;
    }

    /** rehash: new sizes with room for all keys and the new one. */
    method Rehash(k: Value) returns (r: Result)
      requires Valid() && k != Nil && !Within(k, slots.Length) && Absentee(node[..], k)
      requires Roomy(slots[..], node[..], k)
      modifies this, node, slots
      ensures r == Ok || r == Err(Overflow)
      ensures Valid() && SameValues(old(slots[..]), old(node[..]), slots[..], node[..])
      ensures r.Ok? ==> Within(k, slots.Length) || |Keyed(node[..])| < Capacity(node[..], dummy)
      ensures r.Ok? ==> Optimal(Upto(Keys(old(slots[..]), old(node[..])) + {k}, MAXASIZE), slots.Length)
      ensures r == Err(Overflow) <==> TooMany(old(slots[..]), old(node[..]), k)
      ensures slots.Length <= MAXASIZE || slots.Length == old(slots).Length
      ensures (slots == old(slots) || fresh(slots)) && (node == old(node) || fresh(node))
      decreases true, 1
    {
      hide TableOk, SameValues, Lookup, Keyed, Absentee, ValueIn, Within, Optimal, Upto, Keys, ArrayKeys, HashKeys,
          KeysOk, Holds, RoomOf, Roomy, Grown, TooMany, HashShare;
      ghost var a, ns := slots[..], node[..];
      var n, size := NewSizes(k);
      var ok := Resize(n, size);
      r := if ok then Ok else Err(Overflow);
      if ok {
        HeldBy(HashShare(a, ns, k, n), size, Capacity(node[..], dummy));
      } else {
        OverflowKeeps(a, ns, slots[..], node[..], k, n, size, lastfree, dummy, rank, hash);
      }
    }

    /** resize: the keys move to parts of the given sizes, which are large enough for them. */
    method Resize(nasize: nat, nhsize: nat) returns (ok: bool)
      requires Valid() && nasize < INT_MAX && Holds(|Out(Keys(slots[..], node[..]), nasize)|, nhsize)
      modifies this, node, slots
      ensures ok <==> nhsize <= 0x400_0000
      ensures ok ==> Valid() && SameValues(old(slots[..]), old(node[..]), slots[..], node[..]) && slots.Length == nasize
      ensures ok ==>
          |Keyed(node[..])| <= |Out(Keys(old(slots[..]), old(node[..])), nasize)|
          && RoomOf(nhsize, Capacity(node[..], dummy))
      ensures !ok ==> Grown(old(slots[..]), old(node[..]), slots[..], node[..])
      ensures !ok ==> TableOk(old(slots[..]), old(node[..]), lastfree, dummy, rank, hash)
      ensures !ok ==> slots.Length == if old(slots).Length < nasize then nasize else old(slots).Length
      ensures (slots == old(slots) || fresh(slots)) && (node == old(node) || fresh(node))
      decreases true, 0
    {
      hide TableOk, SameValues, Lookup, Keyed, Absentee, ValueIn, Within, Keys, Copied, Rest, KeysOk, Out, Apart,
          RoomOf, Holds;
      ghost var a0, ns0 := slots[..], node[..];
      NodesOf(a0, ns0, lastfree, dummy, rank, hash);
      var olda, oldnode := slots, node;
      if nasize > slots.Length { GrowArray(nasize); }
      ok := SetNodeVector(nhsize);
      if !ok { return; }
      ghost var a1, ns1 := slots[..], node[..];
      if nasize < olda.Length { ShrinkArray(nasize); ShrunkOk(a1, ns1, nasize, lastfree, dummy, rank, hash); }
      EmptyLookup(slots[..], node.Length);
      CopyStart(a0, ns0, slots[..], node[..], nasize);
      ghost var total, cap := |Out(Keys(a0, ns0), nasize)|, Capacity(node[..], dummy);
      HeldBy(total, nhsize, cap);
      var i := nasize;
      while i < olda.Length
        invariant nasize <= i && (i <= olda.Length || nasize >= olda.Length) && Valid() && slots.Length == nasize
        invariant olda[..] == a0 && oldnode[..] == ns0
        invariant fresh(node) && (fresh(slots) || (slots == olda && nasize == olda.Length))
        invariant Copied(a0, ns0, Min(i, |a0|), |ns0|, slots[..], node[..])
        invariant |Keyed(node[..])| + |Rest(a0, ns0, Min(i, |a0|), |ns0|, nasize)| <= total
        invariant cap == Capacity(node[..], dummy)
      {
        ghost var a2, ns2 := slots[..], node[..];
        RestSlot(a0, ns0, i, nasize);
        if olda[i] != Nil { Reinsert(Int(i + 1), olda[i]); }
        CopySlot(a0, ns0, i, a2, ns2, slots[..], node[..]);
        i := i + 1;
      }
      MoveNodes(oldnode, a0, ns0, total);
      CopyDone(a0, ns0, slots[..], node[..]);
    }

    /** The second loop of resize: the keys of the old nodes, from the last to the first. */
    method MoveNodes(oldnode: array<Node>, ghost a0: seq<Value>, ghost ns0: seq<Node>, ghost total: nat)
      requires Valid() && oldnode[..] == ns0 && oldnode != node && KeysOk(ns0) && Apart(|a0|, ns0)
      requires Copied(a0, ns0, |a0|, |ns0|, slots[..], node[..])
      requires |Keyed(node[..])|
          + |Rest(a0, ns0, |a0|, |ns0|, slots.Length)| <= total <= Capacity(node[..], dummy)
      modifies this, node, slots
      ensures Valid() && slots == old(slots) && node == old(node) && dummy == old(dummy)
      ensures Copied(a0, ns0, |a0|, 0, slots[..], node[..]) && |Keyed(node[..])| <= total
      decreases false, 5
    {
      hide TableOk, Lookup, Keyed, ValueIn, Within, Copied, Rest, KeysOk, Apart;
      var j := oldnode.Length;
      while j > 0
        invariant 0 <= j <= oldnode.Length && Valid() && oldnode[..] == ns0 && slots == old(slots) && node == old(node)
            && dummy == old(dummy)
        invariant Copied(a0, ns0, |a0|, j, slots[..], node[..])
        invariant |Keyed(node[..])| + |Rest(a0, ns0, |a0|, j, slots.Length)| <= total
      {
        j := j - 1;
        ghost var a2, ns2 := slots[..], node[..];
        RestNode(a0, ns0, j, slots.Length);
        LiveKey(ns0, j);
        if oldnode[j].val != Nil { Reinsert(oldnode[j].key, oldnode[j].val); }
        CopyNode(a0, ns0, j, a2, ns2, slots[..], node[..]);
      }
    }

    // ----- the operations of tables -----

    /** An assignment t[k] = v: luaH_set, and the value is stored in the place it returns. */
    method Set(k: Value, v: Value) returns (r: Result)
      requires Valid() && Settable(k)
      modifies this, node, slots
      ensures Valid() && forall x :: ValueOf(x) == if r.Ok? && x == k then v else old(ValueOf(x))
      ensures r == Err(NilIndex) <==> k == Nil
      ensures r == Err(Overflow) ==> TooMany(old(slots[..]), old(node[..]), k) && old(ValueOf(k)) == Nil
      ensures slots.Length <= MAXASIZE || slots.Length == old(slots).Length
      ensures (slots == old(slots) || fresh(slots)) && (node == old(node) || fresh(node))
    {
      hide TableOk, Lookup, Keyed, ValueIn, Within, LocOf, Keys, TooMany, Settable;
      ghost var a0, ns0 := slots[..], node[..];
      var loc;
      r, loc := SetSlot(k, false);
      if r.Ok? {
        ghost var a1, ns1 := slots[..], node[..];
        Store(loc, k, v);
        SameThenOne(a0, ns0, a1, ns1, slots[..], node[..], k, v);
      }
    }

    /** luaH_resizearray: the hash part keeps its size, which is always enough for a larger array
        part. */
    method ResizeArray(nasize: nat) returns (ok: bool)
      requires Valid() && nasize < INT_MAX
      requires slots.Length <= nasize
               || Holds(|Out(Keys(slots[..], node[..]), nasize)|, if dummy then 0 else node.Length)
      modifies this, node, slots
      ensures ok && Valid() && slots.Length == nasize && forall x :: ValueOf(x) == old(ValueOf(x))
    {
      hide Lookup, Keyed, ValueIn, Sound, Keys, Out, Holds;
      if nasize >= slots.Length {
        LargerArray(slots[..], node[..], lastfree, dummy, rank, hash, nasize);
        HoldsItself(|Out(Keys(slots[..], node[..]), nasize)|, if dummy then 0 else node.Length);
      }
      ok := Resize(nasize, if dummy then 0 else node.Length);
    }

    // ----- length -----

    /** A border: t[n] is there, or n is 0, and t[n + 1] is not there. */
    ghost predicate Border(n: nat)
      reads this, slots, node
    {
      (n == 0 || ValueOf(Int(n)) != Nil) && ValueOf(Int(n + 1)) == Nil
    }

    /** The linear search of unbound_search. */
    method LinearSearch() returns (n: nat)
      requires Valid()
      ensures Border(n)
    {
      hide TableOk, Lookup, Keys;
      var i := 1;
      var v := Get(Int(i));
      while v != Nil
        invariant i >= 1 && v == ValueOf(Int(i)) && (i > 1 ==> ValueOf(Int(i - 1)) != Nil)
        invariant forall x :: 1 <= x < i ==> ValueOf(Int(x)) != Nil
        decreases |Keys(slots[..], node[..])| + 1 - i
      {
        Pigeonhole(slots[..], node[..], i);
        i := i + 1;
        v := Get(Int(i));
      }
      n := i - 1;
    }

    /** unbound_search. */
    method UnboundSearch(start: nat) returns (n: nat)
      requires Valid() && (start == 0 || ValueOf(Int(start)) != Nil) && start < INT_MAX
      ensures Border(n)
    {
      hide TableOk, Lookup;
      var i, j := start, start + 1;
      var v := Get(Int(j));
      while v != Nil
        invariant 0 <= i < j && (i == 0 || ValueOf(Int(i)) != Nil) && v == ValueOf(Int(j)) && j <= INT_MAX
        decreases INT_MAX - j
      {
        i := j;
        j := j * 2;
        if j > MAX_INT {
          n := LinearSearch();
          return;
        }
        v := Get(Int(j));
      }
      while j - i > 1
        invariant 0 <= i < j && (i == 0 || ValueOf(Int(i)) != Nil) && ValueOf(Int(j)) == Nil
      {
        var m := (i + j) / 2;
        var w := Get(Int(m));
        if w == Nil { j := m; } else { i := m; }
      }
      n := i;
    }

    /** luaH_getn returns a border. */
    method GetN() returns (n: nat)
      requires Valid()
      ensures Border(n)
    {
      hide Sound, ValueIn;
      var j := slots.Length;
      if j > 0 && slots[j - 1] == Nil {
        var i := 0;
        while j - i > 1
          invariant 0 <= i < j <= slots.Length && (i == 0 || slots[i - 1] != Nil) && slots[j - 1] == Nil
        {
          var m := (i + j) / 2;
          if slots[m - 1] == Nil { j := m; } else { i := m; }
        }
        return i;
      } else if dummy {
        NoneHere(node[..], Int(j + 1));
        return j;
      }
      n := UnboundSearch(j);
    }

    /** A table whose hash part is still the common empty node. */
    constructor (hash: Hash, narray: nat)
      requires narray < INT_MAX
      ensures Valid() && fresh(slots) && fresh(node) && slots.Length == narray
      ensures (forall i :: 0 <= i < narray ==> slots[i] == Nil) && forall k :: ValueOf(k) == Nil
    {
      this.hash := hash;
      slots := new Value[narray](i => Nil);
      node := new Node[1](i => EMPTY);
      lastfree := 0;
      dummy := true;
      rank := Zeros(1);
      new;
      EmptyOk(slots[..], 1, true, hash);
      assert node[..] == Empties(1);
      NilEmpty();
    }

    /** luaH_set or luaH_setnum inside resize, and the assignment that follows. */
    method Reinsert(k: Value, v: Value)
      requires Valid() && k != Nil && (Within(k, slots.Length) || |Keyed(node[..])| < Capacity(node[..], dummy))
      modifies this, node, slots
      ensures Valid() && OneChanged(old(slots[..]), old(node[..]), slots[..], node[..], k, v)
      ensures slots == old(slots) && node == old(node) && dummy == old(dummy)
      ensures |Keyed(node[..])| <= |Keyed(old(node[..]))| + if Within(k, slots.Length) then 0 else 1
      decreases false, 4
    {
      hide TableOk, SameValues, OneChanged, Lookup, Keyed, ValueIn, Within, LocOf;
      var r, loc := SetSlot(k, true);
      ghost var a1, ns1 := slots[..], node[..];
      Store(loc, k, v);
      SameThenOne(old(slots[..]), old(node[..]), a1, ns1, slots[..], node[..], k, v);
    }
  }

  /** luaH_new: a table with parts of the given sizes, which may be asked for too many nodes. */
  method NewTable(hash: Hash, narray: nat, nhash: nat) returns (ok: bool, t: Table)
    requires narray < INT_MAX
    ensures fresh(t) && fresh(t.slots) && fresh(t.node) && t.Valid() && forall k :: t.ValueOf(k) == Nil
    ensures t.slots.Length == narray && (ok <==> nhash <= MAXASIZE)
    ensures ok ==> RoomOf(nhash, Capacity(t.node[..], t.dummy))
  {
    t := new Table(hash, narray);
    ok := t.SetNodeVector(nhash);
    if ok {
      forall k ensures t.ValueOf(k) == Nil { NoKeys(t.node.Length, k); }
    }
  }

  // ----- facts for the recursive methods -----

  lemma SameRefl(a: seq<Value>, ns: seq<Node>)
    ensures SameValues(a, ns, a, ns)
  {
  }

  lemma SameTrans(a: seq<Value>, ns: seq<Node>, a1: seq<Value>, ns1: seq<Node>, a2: seq<Value>, ns2: seq<Node>)
    requires SameValues(a, ns, a1, ns1)
    ensures SameValues(a1, ns1, a2, ns2) ==> SameValues(a, ns, a2, ns2)
  {
  }

  lemma SameThenOne(a: seq<Value>, ns: seq<Node>, a1: seq<Value>, ns1: seq<Node>, a2: seq<Value>, ns2: seq<Node>,
      k: Value, v: Value)
    requires SameValues(a, ns, a1, ns1) && OneChanged(a1, ns1, a2, ns2, k, v)
    ensures OneChanged(a, ns, a2, ns2, k, v)
  {
    forall x ensures Lookup(a2, ns2, x) == if x == k then v else Lookup(a, ns, x) {
      var mid := Lookup(a1, ns1, x);
    }
  }

  lemma NotNil(loc: Loc, a: seq<Value>, ns: seq<Node>, dummy: bool, k: Value)
    requires LocOf(loc, a, ns, dummy, k)
    ensures k != Nil
  {
  }

  /** getfreepos fails only when every node has a key. */
  lemma NoRoom(ns: seq<Node>, dummy: bool)
    requires dummy || forall j :: 0 <= j < |ns| ==> ns[j].key != Nil
    ensures |Keyed(ns)| >= Capacity(ns, dummy)
  {
    if !dummy && |Keyed(ns)| < |ns| { SomeFree(ns); }
  }

  /** The keys that rehash sees, and those that it does not. */
  lemma KeyParts(a: seq<Value>, ns: seq<Node>, k: Value)
    requires Apart(|a|, ns) && Absentee(ns, k) && !Within(k, |a|) && k != Nil && KeysOk(ns)
    ensures var first := FirstKeys(a, MAXASIZE);
            && HashKeys(ns) !! first && k !in first + HashKeys(ns) && k !in Keys(a, ns)
            && |first + HashKeys(ns)| == |first| + |HashKeys(ns)|
            && |Upto(first + HashKeys(ns), MAXASIZE)| == |first| + |Upto(HashKeys(ns), MAXASIZE)|
            && Upto(first + HashKeys(ns) + {k}, MAXASIZE) == Upto(Keys(a, ns) + {k}, MAXASIZE)
            && |Keys(a, ns) + {k}| == |first| + |HashKeys(ns)| + 1 + |Beyond(a)|
  {
    var first := FirstKeys(a, MAXASIZE);
    forall j | 0 <= j < |ns| ensures ns[j].key != k { assert !HasKey(ns, k, j); }
    assert Upto(first + HashKeys(ns), MAXASIZE) == first + Upto(HashKeys(ns), MAXASIZE);
    assert Upto(first + HashKeys(ns) + {k}, MAXASIZE) == Upto(Keys(a, ns) + {k}, MAXASIZE);
    assert Keys(a, ns) + {k} == first + HashKeys(ns) + {k} + Beyond(a);
  }

  lemma SeenApart(a: seq<Value>, ns: seq<Node>, k: Value)
    requires Apart(|a|, ns) && Absentee(ns, k) && !Within(k, |a|) && k != Nil && KeysOk(ns)
    ensures HashKeys(ns) !! FirstKeys(a, MAXASIZE) && k !in FirstKeys(a, MAXASIZE) + HashKeys(ns)
  {
    KeyParts(a, ns, k);
  }

  lemma SeenCounts(a: seq<Value>, ns: seq<Node>, k: Value, nums: seq<nat>)
    requires Apart(|a|, ns) && Absentee(ns, k) && !Within(k, |a|) && k != Nil && KeysOk(ns)
    requires Counts(nums, FirstKeys(a, MAXASIZE) + HashKeys(ns) + {k})
    ensures var all := Upto(FirstKeys(a, MAXASIZE) + HashKeys(ns) + {k}, MAXASIZE);
            && Counts(nums, all) && Candidates(all)
            && |Upto(all, MAXASIZE)| == |FirstKeys(a, MAXASIZE)| + |Upto(HashKeys(ns), MAXASIZE)|
                + if Within(k, MAXASIZE) then 1 else 0
  {
    hide Counts, Candidates, Keys, Absentee, KeysOk, Apart, HashKeys, FirstKeys;
    KeyParts(a, ns, k);
    CountsUpto(nums, FirstKeys(a, MAXASIZE) + HashKeys(ns) + {k});
    UptoAdd(FirstKeys(a, MAXASIZE) + HashKeys(ns), k, MAXASIZE);
  }

  lemma AskedFor(a: seq<Value>, ns: seq<Node>, k: Value, n: nat, totaluse: nat, na: nat)
    requires Apart(|a|, ns) && Absentee(ns, k) && !Within(k, |a|) && k != Nil && KeysOk(ns) && n <= MAXASIZE
    requires var seen := FirstKeys(a, MAXASIZE) + HashKeys(ns) + {k};
             && Optimal(Upto(seen, MAXASIZE), n) && na == |Upto(seen, n)|
             && totaluse == |FirstKeys(a, MAXASIZE)| + |HashKeys(ns)| + 1
    ensures Asked(a, ns, k, n, totaluse - na) && totaluse >= na
  {
    hide Optimal;
    KeyParts(a, ns, k);
    var seen, all := FirstKeys(a, MAXASIZE) + HashKeys(ns) + {k}, Keys(a, ns) + {k};
    UptoUpto(seen, n);
    UptoUpto(all, n);
    OutSize(all, n);
    OutSize(seen, n);
  }

  /** The sizes that rehash computes are those asked for, and they do. */
  lemma Planned(a: seq<Value>, ns: seq<Node>, k: Value, n: nat, totaluse: nat, na: nat)
    requires Apart(|a|, ns) && Absentee(ns, k) && !Within(k, |a|) && k != Nil && KeysOk(ns) && n <= MAXASIZE
    requires var seen := FirstKeys(a, MAXASIZE) + HashKeys(ns) + {k};
             && Optimal(Upto(seen, MAXASIZE), n) && na == |Upto(Upto(seen, MAXASIZE), n)|
             && totaluse == |FirstKeys(a, MAXASIZE)| + |HashKeys(ns)| + 1
    requires Roomy(a, ns, k)
    ensures totaluse >= na && Asked(a, ns, k, n, totaluse - na)
    ensures Holds(|Out(Keys(a, ns), n)|, totaluse - na) && Holds(HashShare(a, ns, k, n), totaluse - na)
    ensures Within(k, n) || HashShare(a, ns, k, n) == |Out(Keys(a, ns), n)| + 1
    ensures TooMany(a, ns, k) <==> totaluse - na > MAXASIZE
  {
    hide Optimal, Holds, Keys, Absentee, KeysOk, Apart;
    KeyParts(a, ns, k);
    UptoUpto(FirstKeys(a, MAXASIZE) + HashKeys(ns) + {k}, n);
    AskedFor(a, ns, k, n, totaluse, na);
    RoomyHolds(a, ns, k, n, totaluse - na);
    OutRoom(Keys(a, ns), k, n);
    FewerHeld(|Out(Keys(a, ns), n)|, HashShare(a, ns, k, n), totaluse - na);
    OnlyOverflow(a, ns, k, n, totaluse - na);
  }

  lemma RoomyHolds(a: seq<Value>, ns: seq<Node>, k: Value, n: nat, size: nat)
    requires Roomy(a, ns, k) && Asked(a, ns, k, n, size)
    ensures Holds(HashShare(a, ns, k, n), size)
  {
  }

  lemma FewerHeld(m: nat, m': nat, size: nat)
    requires m <= m' && Holds(m', size)
    ensures Holds(m, size)
  {
  }

  lemma HeldBy(m: nat, size: nat, cap: nat)
    requires Holds(m, size) && RoomOf(size, cap)
    ensures m <= cap
  {
  }

  /** The size that rehash computes is unique. */
  lemma OnlyOverflow(a: seq<Value>, ns: seq<Node>, k: Value, n: nat, size: nat)
    requires Asked(a, ns, k, n, size)
    ensures TooMany(a, ns, k) <==> size > MAXASIZE
  {
    if TooMany(a, ns, k) {
      var n': nat, size': int :| Asked(a, ns, k, n', size') && size' > MAXASIZE;
      OptimalUnique(Upto(Keys(a, ns) + {k}, MAXASIZE), n, n');
    }
  }

  lemma NoCounts(nums: seq<nat>)
    requires |nums| == MAXBITS + 1 && forall i :: 0 <= i <= MAXBITS ==> nums[i] == 0
    ensures Counts(nums, {})
  {
    forall i: nat | i <= MAXBITS ensures nums[i] == |Slice({}, i)| { assert Slice({}, i) == {}; }
  }

  lemma CountsUpto(nums: seq<nat>, all: set<Value>)
    requires Counts(nums, all)
    ensures Counts(nums, Upto(all, MAXASIZE)) && Candidates(Upto(all, MAXASIZE))
        && Upto(Upto(all, MAXASIZE), MAXASIZE) == Upto(all, MAXASIZE)
  {
    forall i: nat | i <= MAXBITS ensures nums[i] == |Slice(Upto(all, MAXASIZE), i)| {
      SliceFits(i);
      assert Slice(Upto(all, MAXASIZE), i) == Slice(all, i);
    }
  }

  lemma UptoUpto(all: set<Value>, n: nat)
    requires n <= MAXASIZE
    ensures Upto(Upto(all, MAXASIZE), n) == Upto(all, n)
  {
  }

  lemma OutRoom(ks: set<Value>, k: Value, n: nat)
    requires k !in ks
    ensures |ks + {k}| == |ks| + 1 && |Out(ks + {k}, n)| == |Out(ks, n)| + (if Within(k, n) then 0 else 1)
    ensures |Out(ks + {k}, n)| <= |ks| + 1
  {
    UptoAdd(ks, k, n);
    OutSize(ks, n);
    OutSize(ks + {k}, n);
  }

  lemma LiveKey(ns: seq<Node>, j: nat)
    requires KeysOk(ns) && j < |ns|
    ensures ns[j].val != Nil ==> ns[j].key != Nil
  {
  }

  lemma EmptyLookup(a: seq<Value>, n: nat)
    ensures forall k :: Lookup(a, Empties(n), k) == Lookup(a, [], k)
  {
    NilEmpty();
    forall k ensures ValueIn(Empties(n), k) == Nil { NoKeys(n, k); }
  }

  lemma ShrunkOk(a: seq<Value>, ns: seq<Node>, n: nat, lastfree: int, dummy: bool, rank: seq<real>, hash: Hash)
    requires TableOk(a, ns, lastfree, dummy, rank, hash) && n <= |a|
    ensures TableOk(a[..n], ns, lastfree, dummy, rank, hash)
  {
    hide Sound, Taken;
  }

  /** With a larger array part, the keys of the nodes still fit as many nodes. */
  lemma LargerArray(a: seq<Value>, ns: seq<Node>, lastfree: int, dummy: bool, rank: seq<real>, hash: Hash, n: nat)
    requires TableOk(a, ns, lastfree, dummy, rank, hash) && |a| <= n
    ensures |Out(Keys(a, ns), n)| <= if dummy then 0 else |ns|
  {
    hide Sound, Taken;
    assert Out(Keys(a, ns), n) <= HashKeys(ns);
    Subset(Out(Keys(a, ns), n), HashKeys(ns));
    HashBound(ns);
    if dummy { assert HashKeys(ns) == {}; }
  }

  lemma {:induction false} HashBound(ns: seq<Node>)
    ensures |HashKeys(ns)| <= |ns|
    decreases |ns|
  {
    if ns == [] {
      assert HashKeys(ns) == {};
    } else {
      var b := ns[..|ns| - 1];
      HashBound(b);
      forall k | k in HashKeys(ns) ensures k in HashKeys(b) + {ns[|ns| - 1].key} {
        var i: nat :| i < |ns| && ns[i].val != Nil && ns[i].key == k;
        if i < |b| { assert b[i] == ns[i]; }
      }
      Subset(HashKeys(ns), HashKeys(b) + {ns[|ns| - 1].key});
    }
  }

  ghost function Run(i: nat): set<Value> {
    set x: nat | 1 <= x <= i :: Int(x)
  }

  lemma {:induction false} RunSize(i: nat)
    ensures |Run(i)| == i
  {
    if i == 0 {
      assert Run(0) == {};
    } else {
      RunSize(i - 1);
      assert Run(i) == Run(i - 1) + {Int(i)};
    }
  }

  lemma KeyOf(a: seq<Value>, ns: seq<Node>, k: Value)
    requires Lookup(a, ns, k) != Nil
    ensures k in Keys(a, ns)
  {
    if Within(k, |a|) {
      assert a[k.i - 1] != Nil;
    } else {
      LiveHere(ns, k);
    }
  }

  /** An assignment adds at most its own key. */
  lemma OneMoreKey(a: seq<Value>, ns: seq<Node>, a': seq<Value>, ns': seq<Node>, k: Value)
    requires KeysOk(ns') && Apart(|a'|, ns')
    requires forall x :: x != k && Lookup(a', ns', x) != Nil ==> Lookup(a, ns, x) != Nil
    ensures |Keys(a', ns')| <= |Keys(a, ns)| + if Lookup(a, ns, k) == Nil then 1 else 0
  {
    hide Lookup, KeysOk, Apart, Keys;
    var more := if Lookup(a, ns, k) == Nil then {k} else {};
    forall x | x in Keys(a', ns') ensures x in Keys(a, ns) + more {
      LiveLookup(a', ns', x);
      if x !in more { KeyOf(a, ns, x); }
    }
    Subset(Keys(a', ns'), Keys(a, ns) + more);
  }

  /** A run of integer keys is no longer than the number of keys. */
  lemma Pigeonhole(a: seq<Value>, ns: seq<Node>, i: nat)
    requires forall x :: 1 <= x <= i ==> Lookup(a, ns, Int(x)) != Nil
    ensures i <= |Keys(a, ns)|
  {
    forall k | k in Run(i) ensures k in Keys(a, ns) { KeyOf(a, ns, k); }
    RunSize(i);
    Subset(Run(i), Keys(a, ns));
  }

  lemma LiveHere(ns: seq<Node>, k: Value)
    requires ValueIn(ns, k) != Nil
    ensures k in HashKeys(ns)
  {
  }

  lemma NoneHere(ns: seq<Node>, k: Value)
    requires ns == [EMPTY] && k != Nil
    ensures ValueIn(ns, k) == Nil
  {
    forall j ensures !HasKey(ns, k, j) {}
  }

  // ----- moving the keys to the new parts -----

  /** The keys that are still to be inserted in the hash part: of the array part from slot i
      on, and of the first j nodes. */
  ghost function Rest(a: seq<Value>, ns: seq<Node>, i: nat, j: nat, n: nat): set<Value>
    requires j <= |ns|
  {
    Out(ArrayKeys(a, i) + HashKeys(ns[..j]), n)
  }

  /** The new parts hold what the old ones held in the first i slots and from node j on. */
  ghost predicate Copied(a0: seq<Value>, ns0: seq<Node>, i: nat, j: nat, a: seq<Value>, ns: seq<Node>) {
    i <= |a0| && j <= |ns0| && forall k :: Lookup(a, ns, k) == Lookup(a0[..i], ns0[j..], k)
  }

  lemma CopyStart(a0: seq<Value>, ns0: seq<Node>, a: seq<Value>, ns: seq<Node>, n: nat)
    requires |a| == n && (forall k :: Lookup(a, ns, k) == Lookup(a, [], k))
    requires forall i :: 0 <= i < n ==> a[i] == if i < |a0| then a0[i] else Nil
    ensures Copied(a0, ns0, Min(n, |a0|), |ns0|, a, ns)
    ensures Rest(a0, ns0, Min(n, |a0|), |ns0|, n) == Out(Keys(a0, ns0), n)
  {
    assert ns0[|ns0|..] == [] && ns0[..|ns0|] == ns0;
    var i := Min(n, |a0|);
    NilEmpty();
    forall k ensures Lookup(a, ns, k) == Lookup(a0[..i], ns0[|ns0|..], k) {
      assert Lookup(a, ns, k) == Lookup(a, [], k);
    }
    assert Out(ArrayKeys(a0, i) + HashKeys(ns0), n) == Out(Keys(a0, ns0), n);
  }

  lemma NilEmpty()
    ensures forall k :: ValueIn([], k) == Nil
  {
    forall k ensures ValueIn([], k) == Nil {
      assert !exists j :: HasKey([], k, j);
    }
  }

  /** Slot i of the vanishing slice has been inserted. */
  lemma CopySlot(a0: seq<Value>, ns0: seq<Node>, i: nat, a1: seq<Value>, ns1: seq<Node>, a: seq<Value>, ns: seq<Node>)
    requires Copied(a0, ns0, i, |ns0|, a1, ns1) && i < |a0|
    requires if a0[i] != Nil then OneChanged(a1, ns1, a, ns, Int(i + 1), a0[i]) else a == a1 && ns == ns1
    ensures Copied(a0, ns0, i + 1, |ns0|, a, ns)
  {
    assert ns0[|ns0|..] == [];
    NilEmpty();
    forall k ensures Lookup(a, ns, k) == Lookup(a0[..i + 1], ns0[|ns0|..], k) {
      assert Lookup(a1, ns1, k) == Lookup(a0[..i], ns0[|ns0|..], k);
    }
  }

  lemma RestSlot(a0: seq<Value>, ns0: seq<Node>, i: nat, n: nat)
    requires i < |a0| && n <= i && Apart(|a0|, ns0)
    ensures a0[i] != Nil ==> |Rest(a0, ns0, i, |ns0|, n)| == |Rest(a0, ns0, i + 1, |ns0|, n)| + 1
    ensures a0[i] == Nil ==> Rest(a0, ns0, i, |ns0|, n) == Rest(a0, ns0, i + 1, |ns0|, n)
  {
    var h := HashKeys(ns0[..|ns0|]);
    assert ns0[..|ns0|] == ns0;
    assert Int(i + 1) !in h;
    assert ArrayKeys(a0, i) == ArrayKeys(a0, i + 1) + if a0[i] != Nil then {Int(i + 1)} else {};
    assert Int(i + 1) !in ArrayKeys(a0, i + 1);
    if a0[i] != Nil {
      assert Rest(a0, ns0, i, |ns0|, n) == Rest(a0, ns0, i + 1, |ns0|, n) + {Int(i + 1)};
    } else {
      assert Rest(a0, ns0, i, |ns0|, n) == Rest(a0, ns0, i + 1, |ns0|, n);
    }
  }

  /** Node j has been inserted. */
  lemma CopyNode(a0: seq<Value>, ns0: seq<Node>, j: nat, a1: seq<Value>, ns1: seq<Node>, a: seq<Value>, ns: seq<Node>)
    requires Copied(a0, ns0, |a0|, j + 1, a1, ns1) && j < |ns0| && KeysOk(ns0) && Apart(|a0|, ns0)
    requires if ns0[j].val != Nil then OneChanged(a1, ns1, a, ns, ns0[j].key, ns0[j].val) else a == a1 && ns == ns1
    ensures Copied(a0, ns0, |a0|, j, a, ns)
  {
    assert a0[..|a0|] == a0;
    forall k ensures Lookup(a, ns, k) == Lookup(a0, ns0[j..], k) {
      assert Lookup(a1, ns1, k) == Lookup(a0, ns0[j + 1..], k);
      TailValue(ns0, j, k);
    }
  }

  lemma TailValue(ns: seq<Node>, j: nat, k: Value)
    requires KeysOk(ns) && j < |ns|
    ensures ValueIn(ns[j..], k) == if k != Nil && k == ns[j].key then ns[j].val else ValueIn(ns[j + 1..], k)
    ensures k != Nil && k == ns[j].key ==> ValueIn(ns[j + 1..], k) == Nil
  {
    var b, c := ns[j..], ns[j + 1..];
    assert b == [ns[j]] + c;
    TailKeys(ns, j);
    TailKeys(ns, j + 1);
    if k != Nil {
      assert forall i :: HasKey(c, k, i) ==> HasKey(b, k, i + 1);
      assert forall i :: HasKey(b, k, i) && i > 0 ==> HasKey(c, k, i - 1);
      if k == ns[j].key {
        assert HasKey(b, k, 0);
        ValueAt(b, k, 0);
        assert forall i :: !HasKey(c, k, i);
      } else if i :| HasKey(c, k, i) {
        ValueAt(c, k, i);
        ValueAt(b, k, i + 1);
      } else {
        assert forall i :: !HasKey(b, k, i);
      }
    }
  }

  lemma TailKeys(ns: seq<Node>, j: nat)
    requires KeysOk(ns) && j <= |ns|
    ensures KeysOk(ns[j..])
  {
  }

  lemma PrefixKeys(ns0: seq<Node>, j: nat)
    requires j < |ns0| && KeysOk(ns0)
    ensures HashKeys(ns0[..j + 1]) == HashKeys(ns0[..j]) + if ns0[j].val != Nil then {ns0[j].key} else {}
    ensures ns0[j].val != Nil ==> ns0[j].key !in HashKeys(ns0[..j])
  {
    var p, q := ns0[..j + 1], ns0[..j];
    assert p == q + [ns0[j]];
    forall k ensures k in HashKeys(p) <==> k in HashKeys(q) || (ns0[j].val != Nil && k == ns0[j].key) {
      if k in HashKeys(q) {
        var i: nat :| i < |q| && q[i].val != Nil && q[i].key == k;
        assert p[i] == q[i];
      }
      if k in HashKeys(p) {
        var i: nat :| i < |p| && p[i].val != Nil && p[i].key == k;
        if i < j { assert q[i] == p[i]; }
      }
      if ns0[j].val != Nil && k == ns0[j].key { assert p[j] == ns0[j]; }
    }
  }

  lemma RestNode(a0: seq<Value>, ns0: seq<Node>, j: nat, n: nat)
    requires j < |ns0| && KeysOk(ns0)
    ensures ns0[j].val != Nil && !Within(ns0[j].key, n) ==>
        |Rest(a0, ns0, |a0|, j + 1, n)| == |Rest(a0, ns0, |a0|, j, n)| + 1
    ensures ns0[j].val == Nil || Within(ns0[j].key, n) ==> Rest(a0, ns0, |a0|, j + 1, n) == Rest(a0, ns0, |a0|, j, n)
  {
    hide HashKeys, KeysOk;
    PrefixKeys(ns0, j);
    assert ArrayKeys(a0, |a0|) == {};
    if ns0[j].val != Nil && !Within(ns0[j].key, n) {
      assert Rest(a0, ns0, |a0|, j + 1, n) == Rest(a0, ns0, |a0|, j, n) + {ns0[j].key};
    } else {
      assert Rest(a0, ns0, |a0|, j + 1, n) == Rest(a0, ns0, |a0|, j, n);
    }
  }

  lemma CopyDone(a0: seq<Value>, ns0: seq<Node>, a: seq<Value>, ns: seq<Node>)
    requires Copied(a0, ns0, |a0|, 0, a, ns)
    ensures SameValues(a0, ns0, a, ns)
  {
    assert a0[..|a0|] == a0 && ns0[0..] == ns0;
  }

  /** twoto. */
  method TwoTo(e: nat) returns (p: nat)
    ensures p == Pow2(e)
  {
    p := 1;
    var i := 0;
    while i < e
      invariant 0 <= i <= e && p == Pow2(i)
    {
      p := p * 2;
      i := i + 1;
    }
  }

  lemma SizeFits(size: nat, e: nat)
    ensures Pow2(0) == 1
    ensures size > 0 && Half(e) < size <= Pow2(e) ==>
        (e <= MAXBITS <==> size <= MAXASIZE) && (e <= MAXBITS ==> Pow2(e) <= MAXASIZE)
  {
    if size > 0 && Half(e) < size <= Pow2(e) {
      Pow2Max();
      if e <= MAXBITS { Pow2Grows(e, MAXBITS); } else { Pow2Grows(MAXBITS, e - 1); }
    }
  }

  /** What newkey finds at a main position that is taken. */
  lemma Colliding(ns: seq<Node>, rank: seq<real>, hash: Hash, mp: nat)
    requires Sound(ns, rank, hash) && mp < |ns| && ns[mp].val != Nil && Linked(ns, rank)
    ensures ns[mp].key != Nil && OnChain(ns, rank, MainPos(hash, ns[mp].key, |ns|), mp)
  {
    assert Found(hash, ns, rank, mp);
  }

  lemma ChainedKey(ns: seq<Node>, mp: nat, n: nat, k: Value)
    requires mp < |ns| && n < |ns| && mp != n
    ensures |Chained(ns, mp, n, k)| == |ns| && Chained(ns, mp, n, k)[n].key == k && Chained(ns, mp, n, k)[n].val == Nil
  {
  }

  lemma MovedKey(ns: seq<Node>, mp: nat, prev: nat, n: nat, k: Value)
    requires mp < |ns| && prev < |ns| && n < |ns|
    ensures |Moved(ns, mp, prev, n, k)| == |ns| && Moved(ns, mp, prev, n, k)[mp] == Node(Nil, k, -1)
  {
  }

  lemma FreeHasNoNext(ns: seq<Node>, n: nat, prev: nat, mp: nat)
    requires LinksOk(ns) && n < |ns| && prev < |ns| && mp < |ns| && ns[prev].next == mp && ns[n].key == Nil
    ensures prev != n
  {
  }

  lemma NextOnChain(ns: seq<Node>, rank: seq<real>, n: nat)
    requires Linked(ns, rank) && n < |ns|
    ensures ns[n].next == -1 || 0 <= ns[n].next < |ns|
    ensures forall i: nat :: i < |ns| && OnChain(ns, rank, n, i) && i != n ==>
        ns[n].next != -1 && OnChain(ns, rank, ns[n].next, i)
    ensures ns[n].next != -1 ==> Above(rank, ns[n].next) < Above(rank, n)
  {
    if ns[n].next != -1 {
      assert ns[n].next in Above(rank, n) && ns[n].next !in Above(rank, ns[n].next);
    }
  }

  lemma NilValue(ns: seq<Node>)
    ensures ValueIn(ns, Nil) == Nil
  {
  }

  lemma FoundNode(ns: seq<Node>, dummy: bool, k: Value, j: int)
    requires HasKey(ns, k, j) && k != Nil && (dummy ==> ns == [EMPTY])
    ensures 0 <= j < |ns| && ns[j].key == k && !dummy
  {
  }

  // ----- runs -----

  /** The last value that a run of assignments gives to a key. */
  function LastSet(ops: seq<(Value, Value)>, k: Value): Value {
    if ops == [] then Nil
    else if ops[|ops| - 1].0 == k then ops[|ops| - 1].1
    else LastSet(ops[..|ops| - 1], k)
  }

  ghost function Assigned(ops: seq<(Value, Value)>): set<Value> {
    set i: nat | i < |ops| :: ops[i].0
  }

  lemma {:induction false} AssignedBound(ops: seq<(Value, Value)>)
    ensures |Assigned(ops)| <= |ops|
    decreases |ops|
  {
    if ops == [] {
      assert Assigned(ops) == {};
    } else {
      var b := ops[..|ops| - 1];
      AssignedBound(b);
      forall k | k in Assigned(ops) ensures k in Assigned(b) + {ops[|ops| - 1].0} {
        var i: nat :| i < |ops| && ops[i].0 == k;
        if i < |b| { assert b[i] == ops[i]; }
      }
      Subset(Assigned(ops), Assigned(b) + {ops[|ops| - 1].0});
    }
  }

  lemma {:induction false} LastAssigned(ops: seq<(Value, Value)>, k: Value)
    requires LastSet(ops, k) != Nil
    ensures k in Assigned(ops)
    decreases |ops|
  {
    if ops[|ops| - 1].0 != k {
      LastAssigned(ops[..|ops| - 1], k);
      var i: nat :| i < |ops| - 1 && ops[..|ops| - 1][i].0 == k;
      assert ops[i].0 == k;
    }
  }

  /** A table holds no more keys than there were assignments. */
  lemma FewKeys(a: seq<Value>, ns: seq<Node>, ops: seq<(Value, Value)>)
    requires KeysOk(ns) && Apart(|a|, ns) && forall k :: Lookup(a, ns, k) == LastSet(ops, k)
    ensures |Keys(a, ns)| <= |ops|
  {
    hide KeysOk, Apart, Keys, Assigned;
    forall k | k in Keys(a, ns) ensures k in Assigned(ops) {
      LiveAssigned(a, ns, ops, k);
    }
    Subset(Keys(a, ns), Assigned(ops));
    AssignedBound(ops);
  }

  lemma LiveAssigned(a: seq<Value>, ns: seq<Node>, ops: seq<(Value, Value)>, k: Value)
    requires KeysOk(ns) && Apart(|a|, ns) && k in Keys(a, ns) && Lookup(a, ns, k) == LastSet(ops, k)
    ensures k in Assigned(ops)
  {
    LiveLookup(a, ns, k);
    LastAssigned(ops, k);
  }

  lemma LiveLookup(a: seq<Value>, ns: seq<Node>, k: Value)
    requires k in Keys(a, ns) && KeysOk(ns) && Apart(|a|, ns)
    ensures Lookup(a, ns, k) != Nil
  {
    if k in HashKeys(ns) {
      var j: nat :| j < |ns| && ns[j].val != Nil && ns[j].key == k;
      assert HasKey(ns, k, j);
      ValueAt(ns, k, j);
    }
  }

  ghost predicate Agrees(t: Table, ops: seq<(Value, Value)>)
    reads t, t.slots, t.node
  {
    forall k :: t.ValueOf(k) == LastSet(ops, k)
  }

  lemma AgreesBound(t: Table, ops: seq<(Value, Value)>)
    requires t.Valid() && Agrees(t, ops)
    ensures |Keys(t.slots[..], t.node[..])| <= |ops|
  {
    hide Lookup, Keys;
    NodesOf(t.slots[..], t.node[..], t.lastfree, t.dummy, t.rank, t.hash);
    assert forall k :: t.ValueOf(k) == Lookup(t.slots[..], t.node[..], k);
    FewKeys(t.slots[..], t.node[..], ops);
  }

  lemma LastNext(ops: seq<(Value, Value)>, k: Value, v: Value, x: Value)
    ensures LastSet(ops + [(k, v)], x) == if x == k then v else LastSet(ops, x)
  {
    assert (ops + [(k, v)])[..|ops|] == ops;
  }

  /** One more assignment; one that is refused changes nothing. */
  method SetNext(t: Table, ghost done: seq<(Value, Value)>, k: Value, v: Value) returns (r: Result)
    requires t.Valid() && t.slots.Length <= MAXASIZE && Agrees(t, done)
    modifies t, t.slots, t.node
    ensures t.Valid() && t.slots.Length <= MAXASIZE && Agrees(t, if r.Ok? then done + [(k, v)] else done)
    ensures r == Err(NilIndex) <==> k == Nil
    ensures r == Err(Overflow) ==> |done| >= MAXASIZE
    ensures (t.slots == old(t.slots) || fresh(t.slots)) && (t.node == old(t.node) || fresh(t.node))
  {
    hide Table.Valid, Table.ValueOf, LastSet, Keys, TooMany, Roomy;
    AgreesBound(t, done);
    CountedRoomy(t.slots[..], t.node[..], k);
    ghost var a, ns := t.slots[..], t.node[..];
    r := t.Set(k, v);
    if r.Ok? {
      forall x ensures t.ValueOf(x) == LastSet(done + [(k, v)], x) { LastNext(done, k, v, x); }
    } else if r == Err(Overflow) {
      ManyKeys(a, ns, k);
    }
  }

  lemma ManyKeys(a: seq<Value>, ns: seq<Node>, k: Value)
    requires TooMany(a, ns, k)
    ensures |Keys(a, ns)| >= MAXASIZE
  {
    var n: nat, size: int :| Asked(a, ns, k, n, size) && size > MAXASIZE;
    Subset(Out(Keys(a, ns) + {k}, n), Keys(a, ns) + {k});
  }

  /** The assignments that were not refused. */
  function Accepted(ops: seq<(Value, Value)>, rs: seq<Result>): seq<(Value, Value)>
    requires |rs| <= |ops|
  {
    if rs == [] then []
    else
      var n := |rs| - 1;
      Accepted(ops, rs[..n]) + if rs[n].Ok? then [ops[n]] else []
  }

  lemma {:induction false} AcceptedBound(ops: seq<(Value, Value)>, rs: seq<Result>)
    requires |rs| <= |ops|
    ensures |Accepted(ops, rs)| <= |rs|
    decreases |rs|
  {
    if rs != [] { AcceptedBound(ops, rs[..|rs| - 1]); }
  }

  /** After any run of assignments, removals and re-insertions included, every key has the
      last value that was assigned to it. Assignments to nil are refused, and so may one be that
      finds 2^26 others done; they change nothing. */
  method SetAll(hash: Hash, ops: seq<(Value, Value)>) returns (rs: seq<Result>, t: Table)
    ensures |rs| == |ops| && t.Valid() && forall k :: t.ValueOf(k) == LastSet(Accepted(ops, rs), k)
    ensures forall i :: 0 <= i < |ops| ==> (rs[i] == Err(NilIndex) <==> ops[i].0 == Nil)
    ensures forall i :: 0 <= i < |ops| && rs[i] == Err(Overflow) ==> i >= MAXASIZE
  {
    t := new Table(hash, 0);
    rs := [];
    var i := 0;
    while i < |ops|
      invariant 0 <= i == |rs| <= |ops| && fresh(t) && fresh(t.slots) && fresh(t.node)
      invariant t.Valid() && t.slots.Length <= MAXASIZE && Agrees(t, Accepted(ops, rs))
      invariant forall j :: 0 <= j < i ==> (rs[j] == Err(NilIndex) <==> ops[j].0 == Nil)
      invariant forall j :: 0 <= j < i && rs[j] == Err(Overflow) ==> j >= MAXASIZE
    {
      hide Table.Valid, Agrees;
      AcceptedBound(ops, rs);
      ghost var done := Accepted(ops, rs);
      var r := SetNext(t, done, ops[i].0, ops[i].1);
      assert (rs + [r])[..i] == rs && (ops[i].0, ops[i].1) == ops[i] && done + [] == done;
      rs := rs + [r];
      i := i + 1;
    }
  }
}
