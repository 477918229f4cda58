/** The hash part of a table: a chained scatter table with Brent's variation (ltable.c,
    lobject.h). */
module TableNodes {

  /** Numbers that are integers, other numbers, strings, booleans, and all objects that are
      hashed by their address. */
  datatype Value = Nil | Int(i: int) | Number(n: nat) | Str(s: nat) | Bool(b: bool) | Pointer(p: nat)

  type Hash = Value -> nat

  /** A value, its key and the next node of the chain; -1 ends a chain. */
  datatype Node = Node(val: Value, key: Value, next: int)

  const EMPTY := Node(Nil, Nil, -1)

  /** hashmod avoids powers of two. */
  function Odd(size: nat): (n: nat)
    requires size > 0
    ensures 0 < n <= size
  {
    if size == 1 then 1 else size - 1
  }

  /** mainposition. */
  function MainPos(hash: Hash, k: Value, size: nat): (p: nat)
    requires size > 0
    ensures p < size
  {
    if k == Int(0) then 0
    else if k.Str? || k.Bool? then hash(k) % size
    else hash(k) % Odd(size)
  }

  /** mainposition: strings and booleans modulo the size, anything else modulo the odd number below
      it, and 0 at the start. */
  lemma MainPosIs(hash: Hash, k: Value, size: nat)
    requires size > 1
    ensures k.Str? || k.Bool? ==> MainPos(hash, k, size) == hash(k) % size
    ensures !k.Str? && !k.Bool? && k != Int(0) ==> MainPos(hash, k, size) == hash(k) % (size - 1)
    ensures MainPos(hash, Int(0), size) == 0
  {
  }

  // ----- chains -----

  /** The chains have no cycles: each link goes to a node of higher rank. */
  ghost predicate Linked(ns: seq<Node>, rank: seq<real>) {
    && |rank| == |ns|
    && forall i :: 0 <= i < |ns| ==> ns[i].next == -1 || (0 <= ns[i].next < |ns| && rank[ns[i].next] > rank[i])
  }

  ghost function Above(rank: seq<real>, i: nat): set<nat>
    requires i < |rank|
  {
    set j: nat | j < |rank| && rank[j] > rank[i]
  }

  /** Node j is in the chain that starts at node i. */
  ghost predicate OnChain(ns: seq<Node>, rank: seq<real>, i: nat, j: nat)
    requires Linked(ns, rank) && i < |ns|
    decreases Above(rank, i)
  {
    i == j ||
    (ns[i].next != -1 && (
       assert ns[i].next in Above(rank, i) && ns[i].next !in Above(rank, ns[i].next);
       OnChain(ns, rank, ns[i].next, j)))
  }

  /** Links go from key to key, and no node has two predecessors. */
  ghost predicate LinksOk(ns: seq<Node>) {
    && (forall i :: 0 <= i < |ns| && 0 <= ns[i].next < |ns| ==> ns[i].key != Nil && ns[ns[i].next].key != Nil)
    && (forall i, j :: 0 <= i < j < |ns| && ns[i].next == ns[j].next ==> ns[i].next == -1)
  }

  ghost predicate KeysOk(ns: seq<Node>) {
    && (forall i, j :: 0 <= i < j < |ns| && ns[i].key != Nil ==> ns[i].key != ns[j].key)
    && (forall i :: 0 <= i < |ns| && ns[i].key == Nil ==> ns[i].val == Nil)
  }

  /** A key that is not in its main position finds a key there that is in its own. */
  predicate Home(hash: Hash, ns: seq<Node>, j: nat)
    requires j < |ns|
  {
    var p := MainPos(hash, ns[j].key, |ns|);
    p == j || (ns[p].key != Nil && MainPos(hash, ns[p].key, |ns|) == p)
  }

  ghost predicate Found(hash: Hash, ns: seq<Node>, rank: seq<real>, j: nat)
    requires Linked(ns, rank) && j < |ns|
  {
    OnChain(ns, rank, MainPos(hash, ns[j].key, |ns|), j) && Home(hash, ns, j)
  }

  /** The invariant of the hash part, removed entries included. */
  ghost predicate Sound(ns: seq<Node>, rank: seq<real>, hash: Hash) {
    && |ns| > 0 && Linked(ns, rank) && LinksOk(ns) && KeysOk(ns)
    && forall j :: 0 <= j < |ns| && ns[j].key != Nil ==> Found(hash, ns, rank, j)
  }

  predicate HasKey(ns: seq<Node>, k: Value, j: int) {
    0 <= j < |ns| && ns[j].key == k
  }

  /** The value the hash part gives to a key. */
  ghost function ValueIn(ns: seq<Node>, k: Value): Value {
    if k != Nil && exists j :: HasKey(ns, k, j) then
      var j :| HasKey(ns, k, j); ns[j].val
    else
      Nil
  }

  lemma ValueAt(ns: seq<Node>, k: Value, j: nat)
    requires KeysOk(ns) && k != Nil && HasKey(ns, k, j)
    ensures ValueIn(ns, k) == ns[j].val
  {
  }

  lemma NoValue(ns: seq<Node>, k: Value)
    requires !exists j :: HasKey(ns, k, j)
    ensures ValueIn(ns, k) == Nil
  {
  }

  /** A key that is not in the chain of its main position is nowhere. */
  lemma Absent(ns: seq<Node>, rank: seq<real>, hash: Hash, k: Value)
    requires Sound(ns, rank, hash) && k != Nil
    requires forall j: nat :: j < |ns| && OnChain(ns, rank, MainPos(hash, k, |ns|), j) ==> ns[j].key != k
    ensures !exists j :: HasKey(ns, k, j)
  {
    forall j | 0 <= j < |ns| ensures ns[j].key != k {
      assert ns[j].key != Nil ==> Found(hash, ns, rank, j);
    }
  }

  // ----- what an insertion does to the chains -----

  lemma {:induction false} SameLinks(ns: seq<Node>, ns': seq<Node>, rank: seq<real>, i: nat, j: nat)
    requires Linked(ns, rank) && Linked(ns', rank) && i < |ns| && |ns'| == |ns|
    requires forall x :: 0 <= x < |ns| ==> ns'[x].next == ns[x].next
    ensures OnChain(ns', rank, i, j) <==> OnChain(ns, rank, i, j)
    decreases Above(rank, i)
  {
    if i != j && ns[i].next != -1 {
      assert ns[i].next in Above(rank, i) && ns[i].next !in Above(rank, ns[i].next);
      SameLinks(ns, ns', rank, ns[i].next, j);
    }
  }

  lemma KeyPut(ns: seq<Node>, mp: nat, k: Value, next: int)
    requires KeysOk(ns) && mp < |ns| && !exists j :: HasKey(ns, k, j)
    ensures KeysOk(ns[mp := Node(Nil, k, next)])
  {
    forall j | 0 <= j < |ns| ensures ns[j].key != k { assert !HasKey(ns, k, j); }
  }

  lemma OverwriteFound(ns: seq<Node>, rank: seq<real>, hash: Hash, mp: nat, k: Value, j: nat)
    requires Linked(ns, rank) && mp < |ns| && k != Nil && MainPos(hash, k, |ns|) == mp && j < |ns|
    requires j != mp ==> ns[j].key != Nil && Found(hash, ns, rank, j)
    ensures var ns' := ns[mp := Node(Nil, k, ns[mp].next)]; Linked(ns', rank) && Found(hash, ns', rank, j)
  {
    var ns' := ns[mp := Node(Nil, k, ns[mp].next)];
    SameLinks(ns, ns', rank, MainPos(hash, ns'[j].key, |ns|), j);
  }

  /** The main position holds no value: the key goes there, and the chain goes on. */
  lemma OverwriteOk(ns: seq<Node>, rank: seq<real>, hash: Hash, mp: nat, k: Value)
    requires Sound(ns, rank, hash) && mp < |ns| && ns[mp].val == Nil && k != Nil && MainPos(hash, k, |ns|) == mp
    requires !exists j :: HasKey(ns, k, j)
    ensures Sound(ns[mp := Node(Nil, k, ns[mp].next)], rank, hash)
    ensures forall x :: ValueIn(ns[mp := Node(Nil, k, ns[mp].next)], x) == ValueIn(ns, x)
  {
    hide KeysOk, Found, ValueIn, HasKey, OnChain, MainPos;
    var ns' := ns[mp := Node(Nil, k, ns[mp].next)];
    KeyPut(ns, mp, k, ns[mp].next);
    forall j: nat | j < |ns'| && ns'[j].key != Nil ensures Found(hash, ns', rank, j) {
      OverwriteFound(ns, rank, hash, mp, k, j);
    }
    forall x ensures ValueIn(ns', x) == ValueIn(ns, x) {
      SameValue(ns, ns', mp, x);
    }
  }

  lemma SameValue(ns: seq<Node>, ns': seq<Node>, mp: nat, x: Value)
    requires KeysOk(ns) && KeysOk(ns') && mp < |ns| == |ns'| && ns[mp].val == Nil == ns'[mp].val
    requires forall j :: 0 <= j < |ns| && j != mp ==> ns'[j].key == ns[j].key && ns'[j].val == ns[j].val
    ensures ValueIn(ns', x) == ValueIn(ns, x)
  {
    if x != Nil {
      if j :| HasKey(ns, x, j) && j != mp {
        assert HasKey(ns', x, j);
        ValueAt(ns, x, j);
        ValueAt(ns', x, j);
      } else {
        assert forall j :: HasKey(ns, x, j) ==> j == mp;
        assert forall j :: HasKey(ns', x, j) ==> HasKey(ns, x, j) || j == mp;
      }
    }
  }

  /** The new node n comes right after mp. */
  function Chained(ns: seq<Node>, mp: nat, n: nat, k: Value): seq<Node>
    requires mp < |ns| && n < |ns|
  {
    ns[n := Node(Nil, k, ns[mp].next)][mp := ns[mp].(next := n)]
  }

  ghost function RankBetween(ns: seq<Node>, rank: seq<real>, mp: nat): real
    requires Linked(ns, rank) && mp < |ns|
  {
    if ns[mp].next == -1 then rank[mp] + 1.0 else (rank[mp] + rank[ns[mp].next]) / 2.0
  }

  /** A node without key is in no chain. */
  lemma FreeApart(ns: seq<Node>, rank: seq<real>, i: nat, n: nat)
    requires Linked(ns, rank) && LinksOk(ns) && i < |ns| && n < |ns| && ns[n].key == Nil && i != n
    ensures !OnChain(ns, rank, i, n)
    decreases Above(rank, i)
  {
    if ns[i].next != -1 {
      assert ns[i].next in Above(rank, i) && ns[i].next !in Above(rank, ns[i].next);
      FreeApart(ns, rank, ns[i].next, n);
    }
  }

  lemma ChainedLinks(ns: seq<Node>, rank: seq<real>, mp: nat, n: nat, k: Value)
    requires Linked(ns, rank) && LinksOk(ns) && mp < |ns| && n < |ns| && ns[n].key == Nil && ns[mp].key != Nil
        && k != Nil
    ensures Linked(Chained(ns, mp, n, k), rank[n := RankBetween(ns, rank, mp)]) && LinksOk(Chained(ns, mp, n, k))
  {
    ChainedNext(ns, mp, n, k);
    hide LinksOk;
  }

  lemma ChainedNext(ns: seq<Node>, mp: nat, n: nat, k: Value)
    requires LinksOk(ns) && mp < |ns| && n < |ns| && ns[n].key == Nil && ns[mp].key != Nil && k != Nil
    ensures LinksOk(Chained(ns, mp, n, k)) && forall i :: 0 <= i < |ns| ==> ns[i].next != n
  {
  }

  lemma {:induction false} ChainedKeeps(ns: seq<Node>, rank: seq<real>, mp: nat, n: nat, k: Value, i: nat, j: nat)
    requires Linked(ns, rank) && LinksOk(ns) && mp < |ns| && n < |ns| && ns[n].key == Nil && ns[mp].key != Nil
        && k != Nil
    requires Linked(Chained(ns, mp, n, k), rank[n := RankBetween(ns, rank, mp)])
    requires i < |ns| && j < |ns| && i != n && j != n && OnChain(ns, rank, i, j)
    ensures OnChain(Chained(ns, mp, n, k), rank[n := RankBetween(ns, rank, mp)], i, j)
    decreases Above(rank, i)
  {
    var ns', rank' := Chained(ns, mp, n, k), rank[n := RankBetween(ns, rank, mp)];
    if i != j {
      var x := ns[i].next;
      assert x in Above(rank, i) && x !in Above(rank, x);
      ChainedKeeps(ns, rank, mp, n, k, x, j);
      if i == mp {
        assert ns'[i].next == n && ns'[n].next == x;
        assert OnChain(ns', rank', n, j);
      }
    }
  }

  lemma ChainFound(ns: seq<Node>, rank: seq<real>, hash: Hash, mp: nat, n: nat, k: Value, j: nat)
    requires Linked(ns, rank) && LinksOk(ns) && mp < |ns| && n < |ns| && ns[mp].key != Nil && ns[n].key == Nil
        && k != Nil
    requires MainPos(hash, k, |ns|) == mp && MainPos(hash, ns[mp].key, |ns|) == mp && j < |ns|
    requires Linked(Chained(ns, mp, n, k), rank[n := RankBetween(ns, rank, mp)])
    requires j != n ==> ns[j].key != Nil && Found(hash, ns, rank, j)
    ensures Found(hash, Chained(ns, mp, n, k), rank[n := RankBetween(ns, rank, mp)], j)
  {
    assert |rank| == |ns|;
    hide LinksOk, Linked, RankBetween;
    var ns', rank' := Chained(ns, mp, n, k), rank[n := RankBetween(ns, rank, mp)];
    if j == n {
      assert OnChain(ns', rank', n, n);
      assert OnChain(ns', rank', mp, n);
    } else {
      ChainedKeeps(ns, rank, mp, n, k, MainPos(hash, ns[j].key, |ns|), j);
    }
  }

  lemma ChainKeys(ns: seq<Node>, mp: nat, n: nat, k: Value)
    requires KeysOk(ns) && mp < |ns| && n < |ns| && mp != n && !exists j :: HasKey(ns, k, j)
    ensures KeysOk(Chained(ns, mp, n, k))
  {
    forall j | 0 <= j < |ns| ensures ns[j].key != k { assert !HasKey(ns, k, j); }
  }

  /** The colliding key is in its own main position: the new key goes to a free node. */
  lemma ChainOk(ns: seq<Node>, rank: seq<real>, hash: Hash, mp: nat, n: nat, k: Value)
    requires Sound(ns, rank, hash) && mp < |ns| && n < |ns| && ns[mp].key != Nil && ns[n].key == Nil && k != Nil
        && MainPos(hash, k, |ns|) == mp
    requires MainPos(hash, ns[mp].key, |ns|) == mp && !exists j :: HasKey(ns, k, j)
    ensures Sound(Chained(ns, mp, n, k), rank[n := RankBetween(ns, rank, mp)], hash)
    ensures forall x :: ValueIn(Chained(ns, mp, n, k), x) == ValueIn(ns, x)
  {
    assert |rank| == |ns|;
    hide KeysOk, LinksOk, Linked, Found, ValueIn, HasKey, OnChain, MainPos, RankBetween;
    var ns', rank' := Chained(ns, mp, n, k), rank[n := RankBetween(ns, rank, mp)];
    FreeValue(ns, n);
    ChainedLinks(ns, rank, mp, n, k);
    ChainKeys(ns, mp, n, k);
    forall j: nat | j < |ns'| && ns'[j].key != Nil ensures Found(hash, ns', rank', j) {
      ChainFound(ns, rank, hash, mp, n, k, j);
    }
    forall x ensures ValueIn(ns', x) == ValueIn(ns, x) {
      SameValue(ns, ns', n, x);
    }
  }

  lemma FreeValue(ns: seq<Node>, n: nat)
    requires KeysOk(ns) && n < |ns| && ns[n].key == Nil
    ensures ns[n].val == Nil
  {
  }

  /** The colliding node moves to n, and the new key takes its place. */
  function Moved(ns: seq<Node>, mp: nat, prev: nat, n: nat, k: Value): seq<Node>
    requires mp < |ns| && prev < |ns| && n < |ns|
  {
    ns[prev := ns[prev].(next := n)][n := ns[mp]][mp := Node(Nil, k, -1)]
  }

  lemma MovedLinks(ns: seq<Node>, rank: seq<real>, mp: nat, prev: nat, n: nat, k: Value)
    requires Linked(ns, rank) && LinksOk(ns) && mp < |ns| && prev < |ns| && n < |ns| && ns[prev].next == mp
        && ns[n].key == Nil && k != Nil
    ensures Linked(Moved(ns, mp, prev, n, k), rank[n := rank[mp]]) && LinksOk(Moved(ns, mp, prev, n, k))
    ensures mp != prev && n != prev && n != mp
  {
    assert mp != prev;
    MovedNext(ns, mp, prev, n, k);
    hide LinksOk;
  }

  lemma MovedNext(ns: seq<Node>, mp: nat, prev: nat, n: nat, k: Value)
    requires LinksOk(ns) && mp < |ns| && prev < |ns| && n < |ns| && ns[prev].next == mp && ns[n].key == Nil && k != Nil
    requires mp != prev
    ensures LinksOk(Moved(ns, mp, prev, n, k)) && n != prev && n != mp
    ensures forall i :: 0 <= i < |ns| && ns[i].next == mp ==> i == prev
    ensures forall i :: 0 <= i < |ns| ==> ns[i].next != n
  {
    var ns' := Moved(ns, mp, prev, n, k);
    MovedApart(ns, mp, prev, n);
    assert forall i :: 0 <= i < |ns| ==>
        ns'[i].next == if i == mp then -1 else if i == n then ns[mp].next else if i == prev then n else ns[i].next;
    assert forall i :: 0 <= i < |ns| ==> (ns'[i].key == Nil <==> i != n && i != mp && ns[i].key == Nil);
    hide Moved;
  }

  lemma MovedApart(ns: seq<Node>, mp: nat, prev: nat, n: nat)
    requires LinksOk(ns) && mp < |ns| && prev < |ns| && n < |ns| && ns[prev].next == mp && ns[n].key == Nil
    ensures n != prev && n != mp && ns[mp].key != Nil && ns[prev].key != Nil
    ensures forall i :: 0 <= i < |ns| && ns[i].next == mp ==> i == prev
    ensures forall i :: 0 <= i < |ns| ==> ns[i].next != n
  {
  }

  lemma {:induction false} MovedKeeps(ns: seq<Node>, rank: seq<real>, mp: nat, prev: nat, n: nat, k: Value, i: nat,
      j: nat)
    requires Linked(ns, rank) && LinksOk(ns) && mp < |ns| && prev < |ns| && n < |ns| && ns[prev].next == mp
        && ns[n].key == Nil && k != Nil
    requires Linked(Moved(ns, mp, prev, n, k), rank[n := rank[mp]])
    requires i < |ns| && j < |ns| && i != n && j != n && OnChain(ns, rank, i, j)
    ensures OnChain(Moved(ns, mp, prev, n, k), rank[n := rank[mp]], if i == mp then n else i, if j == mp then n else j)
    decreases Above(rank, i)
  {
    MovedLinks(ns, rank, mp, prev, n, k);
    var ns', rank' := Moved(ns, mp, prev, n, k), rank[n := rank[mp]];
    if i != j {
      var x := ns[i].next;
      assert x in Above(rank, i) && x !in Above(rank, x);
      MovedKeeps(ns, rank, mp, prev, n, k, x, j);
    }
  }

  lemma MoveFound(ns: seq<Node>, rank: seq<real>, hash: Hash, mp: nat, prev: nat, n: nat, k: Value, j: nat)
    requires Linked(ns, rank) && LinksOk(ns) && mp < |ns| && prev < |ns| && n < |ns| && ns[mp].key != Nil
        && ns[n].key == Nil && k != Nil
    requires MainPos(hash, k, |ns|) == mp && MainPos(hash, ns[mp].key, |ns|) != mp && ns[prev].next == mp && n != mp
    requires Linked(Moved(ns, mp, prev, n, k), rank[n := rank[mp]]) && j < |ns| && ns[j].key != Nil
        && Found(hash, ns, rank, j) && prev != n && prev != mp
    ensures Found(hash, Moved(ns, mp, prev, n, k), rank[n := rank[mp]], if j == mp then n else j)
  {
    hide LinksOk, Linked, OnChain;
    MovedKeeps(ns, rank, mp, prev, n, k, MainPos(hash, ns[j].key, |ns|), j);
  }

  lemma MoveKeys(ns: seq<Node>, mp: nat, prev: nat, n: nat, k: Value)
    requires KeysOk(ns) && mp < |ns| && prev < |ns| && n < |ns| && mp != prev && n != prev && n != mp
        && ns[n].key == Nil && !exists j :: HasKey(ns, k, j)
    ensures KeysOk(Moved(ns, mp, prev, n, k))
  {
    forall j | 0 <= j < |ns| ensures ns[j].key != k { assert !HasKey(ns, k, j); }
  }

  lemma NewFound(hash: Hash, ns: seq<Node>, rank: seq<real>, mp: nat)
    requires Linked(ns, rank) && mp < |ns| && MainPos(hash, ns[mp].key, |ns|) == mp
    ensures Found(hash, ns, rank, mp)
  {
  }

  /** The colliding key is not in its own main position: moving it breaks no chain, because no
      chain that matters starts where it was. */
  lemma MoveOk(ns: seq<Node>, rank: seq<real>, hash: Hash, mp: nat, prev: nat, n: nat, k: Value)
    requires Sound(ns, rank, hash) && mp < |ns| && prev < |ns| && n < |ns| && ns[mp].key != Nil && ns[n].key == Nil
        && k != Nil
    requires MainPos(hash, k, |ns|) == mp && MainPos(hash, ns[mp].key, |ns|) != mp && ns[prev].next == mp
        && !exists j :: HasKey(ns, k, j)
    ensures Sound(Moved(ns, mp, prev, n, k), rank[n := rank[mp]], hash)
    ensures forall x :: ValueIn(Moved(ns, mp, prev, n, k), x) == ValueIn(ns, x)
  {
    assert |rank| == |ns|;
    hide KeysOk, LinksOk, Linked, Found, ValueIn, HasKey, OnChain, MainPos;
    var ns', rank' := Moved(ns, mp, prev, n, k), rank[n := rank[mp]];
    MovedLinks(ns, rank, mp, prev, n, k);
    MoveKeys(ns, mp, prev, n, k);
    forall j: nat | j < |ns'| && ns'[j].key != Nil ensures Found(hash, ns', rank', j) {
      if j == mp { NewFound(hash, ns', rank', mp); } else {
          MoveFound(ns, rank, hash, mp, prev, n, k, if j == n then mp else j); }
    }
    forall x ensures ValueIn(ns', x) == ValueIn(ns, x) {
      MovedValue(ns, mp, prev, n, k, x);
    }
  }

  lemma MovedValue(ns: seq<Node>, mp: nat, prev: nat, n: nat, k: Value, x: Value)
    requires mp < |ns| && prev < |ns| && n < |ns| && mp != prev && n != prev && n != mp && ns[n].key == Nil
    requires KeysOk(ns) && KeysOk(Moved(ns, mp, prev, n, k)) && !exists j :: HasKey(ns, k, j)
    ensures ValueIn(Moved(ns, mp, prev, n, k), x) == ValueIn(ns, x)
  {
    var ns' := Moved(ns, mp, prev, n, k);
    if x != Nil {
      if j :| HasKey(ns, x, j) {
        var j' := if j == mp then n else j;
        assert HasKey(ns', x, j');
        ValueAt(ns, x, j);
        ValueAt(ns', x, j');
      } else {
        assert forall j :: HasKey(ns', x, j) ==> j == mp || HasKey(ns, x, if j == n then mp else j);
      }
    }
  }

  // ----- a value is stored -----

  lemma StoreFound(ns: seq<Node>, rank: seq<real>, hash: Hash, j: nat, v: Value, i: nat)
    requires Linked(ns, rank) && j < |ns| && i < |ns| && Found(hash, ns, rank, i)
    ensures var ns' := ns[j := ns[j].(val := v)]; Linked(ns', rank) && Found(hash, ns', rank, i)
  {
    var ns' := ns[j := ns[j].(val := v)];
    assert forall x :: 0 <= x < |ns| ==> ns'[x].next == ns[x].next && ns'[x].key == ns[x].key;
    SameLinks(ns, ns', rank, MainPos(hash, ns[i].key, |ns|), i);
  }

  lemma StoreValue(ns: seq<Node>, j: nat, v: Value, x: Value)
    requires KeysOk(ns) && j < |ns| && ns[j].key != Nil
    ensures KeysOk(ns[j := ns[j].(val := v)]) && ValueIn(ns[j := ns[j].(val := v)], x) == if x == ns[j].key then v
        else ValueIn(ns, x)
  {
    var ns' := ns[j := ns[j].(val := v)];
    assert forall i :: HasKey(ns', x, i) <==> HasKey(ns, x, i);
    if i :| x != Nil && HasKey(ns, x, i) {
      ValueAt(ns, x, i);
      ValueAt(ns', x, i);
    } else {
      assert x != Nil ==> !HasKey(ns, x, j);
    }
  }

  lemma StoreOk(ns: seq<Node>, rank: seq<real>, hash: Hash, j: nat, v: Value)
    requires Sound(ns, rank, hash) && j < |ns| && ns[j].key != Nil
    ensures Sound(ns[j := ns[j].(val := v)], rank, hash)
    ensures forall x :: ValueIn(ns[j := ns[j].(val := v)], x) == if x == ns[j].key then v else ValueIn(ns, x)
  {
    hide KeysOk, Found, ValueIn, HasKey, OnChain, MainPos;
    var ns' := ns[j := ns[j].(val := v)];
    forall i: nat | i < |ns'| && ns'[i].key != Nil ensures Found(hash, ns', rank, i) {
      StoreFound(ns, rank, hash, j, v, i);
    }
    StoreValue(ns, j, v, Nil);
    forall x ensures ValueIn(ns', x) == if x == ns[j].key then v else ValueIn(ns, x) {
      StoreValue(ns, j, v, x);
    }
  }

  // ----- room -----

  ghost function Keyed(ns: seq<Node>): set<nat> {
    set j: nat | j < |ns| && ns[j].key != Nil
  }

  predicate Below(j: nat, n: nat) {
    j < n
  }

  ghost function UpTo(n: nat): set<nat> {
    set j: nat | j < n && Below(j, n)
  }

  lemma {:induction false} UpToSize(n: nat)
    ensures |UpTo(n)| == n
  {
    if n > 0 {
      UpToSize(n - 1);
      assert Below(n - 1, n) && forall j: nat :: j < n - 1 ==> Below(j, n) && Below(j, n - 1);
      assert UpTo(n) == UpTo(n - 1) + {n - 1};
    }
  }

  /** When fewer keys than nodes are there, a node has no key. */
  lemma SomeFree(ns: seq<Node>)
    requires |Keyed(ns)| < |ns|
    ensures exists j :: 0 <= j < |ns| && ns[j].key == Nil
  {
    if forall j :: 0 <= j < |ns| ==> ns[j].key != Nil {
      assert forall j: nat :: j < |ns| ==> Below(j, |ns|);
      assert Keyed(ns) == UpTo(|ns|);
      UpToSize(|ns|);
    }
  }

  /** Every key from lastfree on is taken. */
  ghost predicate Taken(ns: seq<Node>, lastfree: int) {
    lastfree <= |ns| && forall i :: 0 <= i < |ns| && lastfree <= i ==> ns[i].key != Nil
  }

  lemma KeyedOne(ns: seq<Node>, ns': seq<Node>, n: nat)
    requires |ns'| == |ns| && n < |ns| && ns'[n].key != Nil
    requires forall j :: 0 <= j < |ns| && j != n ==> (ns'[j].key == Nil <==> ns[j].key == Nil)
    ensures |Keyed(ns')| <= |Keyed(ns)| + 1 && (forall f :: Taken(ns, f) ==> Taken(ns', f))
        && (Taken(ns, n + 1) ==> Taken(ns', n))
  {
    assert Keyed(ns') == Keyed(ns) + {n};
  }
}
