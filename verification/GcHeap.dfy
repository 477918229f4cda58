/** Collectable objects, what they refer to, and the colours the collector gives them
    (lgc.h, lobject.h). */
module GcHeap {
  import opened Common

  type Obj = nat

  datatype Value = Plain(id: int) | Ref(o: Obj)

  datatype Tag = STRING | USERDATA | UPVAL | FUNCTION | TABLE | THREAD | PROTO

  type Text = seq<nat>

  /** What an object holds: values, the address of a stack slot (an open upvalue), or the
      bytes of a string. */
  datatype Body = Fields(vals: seq<Value>) | Slot(thread: Obj, index: nat) | Bytes(s: Text)

  datatype Shape = Shape(tt: Tag, body: Body)

  type Heap = map<Obj, Shape>

  datatype Colour = White0 | White1 | Gray | Black

  type Marks = map<Obj, Colour>

  predicate IsWhite(c: Colour) {
    c.White0? || c.White1?
  }

  function OtherWhite(cw: Colour): Colour {
    if cw.White0? then White1 else White0
  }

  predicate IsOpen(h: Heap, o: Obj) {
    o in h && h[o].body.Slot?
  }

  /** The objects that wait in gray lists. */
  predicate Traversable(t: Tag) {
    t.FUNCTION? || t.TABLE? || t.THREAD? || t.PROTO?
  }

  ghost predicate WFObject(h: Heap, o: Obj)
    requires o in h
  {
    match h[o].body
    case Slot(th, i) => h[o].tt == UPVAL && th in h && h[th].tt == THREAD && h[th].body.Fields? && i < |h[th].body.vals|
    case Fields(vs) => h[o].tt != STRING && (h[o].tt == UPVAL ==> |vs| == 1) && (h[o].tt == THREAD ==> |vs| >= 1)
    case Bytes(_) => h[o].tt == STRING
  }

  ghost predicate WFHeap(h: Heap) {
    forall o :: o in h ==> WFObject(h, o)
  }

  /** The values a traversal of o meets. */
  function Values(h: Heap, o: Obj): seq<Value>
    requires o in h
  {
    match h[o].body
    case Fields(vs) => vs
    case Bytes(_) => []
    case Slot(th, i) =>
      if th in h && h[th].body.Fields? && i < |h[th].body.vals| then [h[th].body.vals[i]] else []
  }

  predicate Edge(h: Heap, o: Obj, p: Obj) {
    o in h && Ref(p) in Values(h, o)
  }

  // ----- reachability -----

  ghost predicate Path(h: Heap, p: seq<Obj>) {
    |p| > 0 && forall i :: 0 <= i < |p| - 1 ==> Edge(h, p[i], p[i + 1])
  }

  ghost predicate Leads(h: Heap, roots: set<Obj>, p: seq<Obj>, o: Obj) {
    Path(h, p) && p[0] in roots && p[|p| - 1] == o
  }

  /** o can be reached from the roots. */
  ghost predicate Reach(h: Heap, roots: set<Obj>, o: Obj) {
    exists p :: Leads(h, roots, p, o)
  }

  ghost predicate ClosedSet(h: Heap, s: iset<Obj>) {
    forall o, p :: o in s && Edge(h, o, p) ==> p in s
  }

  lemma {:induction false} PathStays(h: Heap, s: iset<Obj>, p: seq<Obj>, n: nat)
    requires ClosedSet(h, s) && Path(h, p) && p[0] in s && n < |p|
    ensures p[n] in s
    decreases n
  {
    if n > 0 {
      PathStays(h, s, p, n - 1);
      assert Edge(h, p[n - 1], p[n - 1 + 1]);
    }
  }

  /** A set closed under references that contains the roots contains all they reach. */
  lemma ReachClosed(h: Heap, roots: set<Obj>, s: iset<Obj>, o: Obj)
    requires ClosedSet(h, s) && (forall r :: r in roots ==> r in s) && Reach(h, roots, o)
    ensures o in s
  {
    var p :| Leads(h, roots, p, o);
    PathStays(h, s, p, |p| - 1);
  }

  lemma ReachRoot(h: Heap, roots: set<Obj>, r: Obj)
    requires r in roots
    ensures Reach(h, roots, r)
  {
    assert Leads(h, roots, [r], r);
  }

  lemma ReachEdge(h: Heap, roots: set<Obj>, o: Obj, p: Obj)
    requires Reach(h, roots, o) && Edge(h, o, p)
    ensures Reach(h, roots, p)
  {
    var q :| Leads(h, roots, q, o);
    var q' := q + [p];
    assert forall i :: 0 <= i < |q'| - 1 ==> Edge(h, q'[i], q'[i + 1]);
    assert Leads(h, roots, q', p);
  }

  ghost function ReachSet(h: Heap, roots: set<Obj>): iset<Obj> {
    iset o | Reach(h, roots, o)
  }

  lemma ReachSetClosed(h: Heap, roots: set<Obj>)
    ensures ClosedSet(h, ReachSet(h, roots)) && forall r :: r in roots ==> r in ReachSet(h, roots)
  {
    forall o, p | o in ReachSet(h, roots) && Edge(h, o, p) ensures p in ReachSet(h, roots) {
      ReachEdge(h, roots, o, p);
    }
    forall r | r in roots ensures r in ReachSet(h, roots) {
      ReachRoot(h, roots, r);
    }
  }

  // ----- marking -----

  /** Every reference from a marked object to a white one starts in pend. */
  ghost predicate EdgesOk(h: Heap, m: Marks, pend: set<Obj>) {
    forall o, p :: o in m && !IsWhite(m[o]) && Edge(h, o, p) && p in m && IsWhite(m[p]) ==> o in pend
  }

  /** Nothing in the heap refers outside it. */
  ghost predicate NoDangling(h: Heap) {
    forall o, p :: Edge(h, o, p) ==> p in h
  }

  /** Colours only tell what they should: strings, threads and open upvalues are never
      black, userdata and closed upvalues never gray. */
  ghost predicate KindsOk(h: Heap, m: Marks, exempt: set<Obj>) {
    forall o :: o in m && o in h && o !in exempt ==>
      && (m[o].Black? ==> h[o].tt != STRING && h[o].tt != THREAD && !h[o].body.Slot?)
      && (m[o].Gray? ==> h[o].tt != USERDATA && (h[o].tt == UPVAL ==> h[o].body.Slot?))
  }

  /** The gray lists hold exactly the gray objects that have to be traversed. */
  ghost predicate ListsOk(h: Heap, m: Marks, lists: seq<Obj>) {
    && NoDup(lists)
    && (forall o :: o in lists ==> o in h && o in m && m[o].Gray? && Traversable(h[o].tt))
    && (forall o :: o in m && o in h && m[o].Gray? && Traversable(h[o].tt) ==> o in lists)
  }

  /** Marking never changes an object that is marked already. */
  ghost predicate Grows(m: Marks, m': Marks) {
    && m'.Keys == m.Keys
    && forall o :: o in m ==> m'[o] == m[o] || (IsWhite(m[o]) && !IsWhite(m'[o]))
  }

  /** ... and marks only objects of s. */
  ghost predicate Within(m: Marks, m': Marks, s: iset<Obj>) {
    forall o :: o in m && o in m' && IsWhite(m[o]) && !IsWhite(m'[o]) ==> o in s
  }

  ghost function Whites(m: Marks): set<Obj> {
    set o | o in m && IsWhite(m[o])
  }

  ghost predicate NoneDead(m: Marks, cw: Colour) {
    forall o :: o in m ==> m[o] != OtherWhite(cw)
  }

  lemma WhitesShrink(m: Marks, m': Marks)
    requires Grows(m, m')
    ensures Whites(m') <= Whites(m)
  {
  }

  /** The mark phase: `pend` are the objects, besides those in the gray list, that may still
      refer to white ones; `exempt` are those being marked just now. */
  ghost predicate MarkState(h: Heap, m: Marks, cw: Colour, gray: seq<Obj>, grayagain: seq<Obj>, pend: set<Obj>,
      exempt: set<Obj>) {
    && m.Keys == h.Keys && WFHeap(h) && NoDangling(h) && IsWhite(cw) && NoneDead(m, cw)
    && KindsOk(h, m, exempt) && ListsOk(h, m, gray + grayagain)
    && EdgesOk(h, m, pend + Elems(gray))
  }

  lemma MarkOne(m: Marks, o: Obj, c: Colour, s: iset<Obj>)
    requires o in m && IsWhite(m[o]) && !IsWhite(c) && o in s
    ensures Grows(m, m[o := c]) && Within(m, m[o := c], s) && Whites(m[o := c]) < Whites(m)
  {
    assert o in Whites(m) && o !in Whites(m[o := c]);
  }

  lemma GrowsRefl(m: Marks, s: iset<Obj>)
    ensures Grows(m, m) && Within(m, m, s)
  {
  }

  lemma GrowsTrans(m: Marks, m1: Marks, m2: Marks, s: iset<Obj>)
    requires Grows(m, m1) && Grows(m1, m2) && Within(m, m1, s) && Within(m1, m2, s)
    ensures Grows(m, m2) && Within(m, m2, s)
  {
  }

  /** A string refers to nothing. */
  lemma GrayString(h: Heap, m: Marks, cw: Colour, gray: seq<Obj>, grayagain: seq<Obj>, pend: set<Obj>,
      exempt: set<Obj>, o: Obj)
    requires MarkState(h, m, cw, gray, grayagain, pend, exempt) && o in m && IsWhite(m[o]) && h[o].tt == STRING
    ensures MarkState(h, m[o := Gray], cw, gray, grayagain, pend, exempt)
  {
    assert WFObject(h, o) && Values(h, o) == [];
  }

  /** An object is marked; its references are looked at next. */
  lemma MarkPending(h: Heap, m: Marks, cw: Colour, gray: seq<Obj>, grayagain: seq<Obj>, pend: set<Obj>,
      exempt: set<Obj>, o: Obj, c: Colour)
    requires MarkState(h, m, cw, gray, grayagain, pend, exempt) && o in m && IsWhite(m[o])
    requires (c == Black && h[o].tt == USERDATA) || (c == Gray && h[o].tt == UPVAL)
    ensures MarkState(h, m[o := c], cw, gray, grayagain, pend + {o}, if c.Gray? then exempt + {o} else exempt)
  {
    assert WFObject(h, o);
  }

  /** All its references have been marked. */
  lemma MarkDone(h: Heap, m: Marks, cw: Colour, gray: seq<Obj>, grayagain: seq<Obj>, pend: set<Obj>, exempt: set<Obj>,
      o: Obj)
    requires MarkState(h, m, cw, gray, grayagain, pend + {o}, exempt) && o in m
    requires forall p :: Ref(p) in Values(h, o) ==> p in m && !IsWhite(m[p])
    ensures MarkState(h, m, cw, gray, grayagain, pend, exempt)
  {
    forall p, q | p in m && !IsWhite(m[p]) && Edge(h, p, q) && q in m && IsWhite(m[q]) ensures p in pend + Elems(gray) {
      assert p in pend + {o} + Elems(gray);
      assert p != o;
    }
  }

  lemma UpvalDone(h: Heap, m: Marks, cw: Colour, gray: seq<Obj>, grayagain: seq<Obj>, pend: set<Obj>, exempt: set<Obj>,
      o: Obj)
    requires MarkState(h, m, cw, gray, grayagain, pend, exempt + {o}) && o in m && m[o].Gray? && h[o].tt == UPVAL
    ensures h[o].body.Slot? || h[o].body.Fields?
    ensures h[o].body.Slot? ==> MarkState(h, m, cw, gray, grayagain, pend, exempt)
    ensures h[o].body.Fields? ==> MarkState(h, m[o := Black], cw, gray, grayagain, pend, exempt)
  {
    assert WFObject(h, o);
  }

  lemma GrayPush(h: Heap, m: Marks, cw: Colour, gray: seq<Obj>, grayagain: seq<Obj>, pend: set<Obj>, exempt: set<Obj>,
      o: Obj)
    requires MarkState(h, m, cw, gray, grayagain, pend, exempt) && o in m && IsWhite(m[o]) && Traversable(h[o].tt)
    ensures MarkState(h, m[o := Gray], cw, [o] + gray, grayagain, pend, exempt)
  {
    PushLists(h, m, gray + grayagain, o);
    assert [o] + gray + grayagain == [o] + (gray + grayagain);
    assert Elems([o] + gray) == {o} + Elems(gray);
  }

  lemma PushLists(h: Heap, m: Marks, lists: seq<Obj>, o: Obj)
    requires ListsOk(h, m, lists) && o in m && o in h && !m[o].Gray? && Traversable(h[o].tt)
    ensures ListsOk(h, m[o := Gray], [o] + lists)
  {
    var l := [o] + lists;
    forall i, j | 0 <= i < j < |l| ensures l[i] != l[j] {
      assert l[j] == lists[j - 1] && lists[j - 1] in lists;
    }
  }

  // ----- traversing -----

  /** Marked objects stay marked. */
  ghost predicate Onward(m: Marks, m': Marks) {
    m'.Keys == m.Keys && forall o :: o in m && !IsWhite(m[o]) ==> !IsWhite(m'[o])
  }

  ghost predicate MarkedIn(m: Marks, s: iset<Obj>) {
    forall o :: o in m && !IsWhite(m[o]) ==> o in s
  }

  lemma GrowsOnward(m: Marks, m': Marks, s: iset<Obj>)
    requires Grows(m, m') && Within(m, m', s) && MarkedIn(m, s)
    ensures Onward(m, m') && MarkedIn(m', s)
  {
  }

  lemma OnwardTrans(m: Marks, m1: Marks, m2: Marks)
    requires Onward(m, m1) && Onward(m1, m2)
    ensures Onward(m, m2)
  {
  }

  lemma OnwardRefl(m: Marks)
    ensures Onward(m, m)
  {
  }

  /** A gray object is taken out of the gray list and turned black. */
  lemma PopBlack(h: Heap, m: Marks, cw: Colour, gray: seq<Obj>, grayagain: seq<Obj>, pend: set<Obj>)
    requires MarkState(h, m, cw, gray, grayagain, pend, {}) && gray != [] && h[gray[0]].tt != THREAD
    ensures gray[0] in m && m[gray[0]].Gray?
    ensures MarkState(h, m[gray[0] := Black], cw, gray[1..], grayagain, pend + {gray[0]}, {})
    ensures Onward(m, m[gray[0] := Black]) && Whites(m[gray[0] := Black]) == Whites(m)
  {
    var o := gray[0];
    var m' := m[o := Black];
    assert o in gray + grayagain;
    assert WFObject(h, o);
    PopLists(h, m, gray + grayagain);
    assert (gray + grayagain)[0] == o && (gray + grayagain)[1..] == gray[1..] + grayagain;
    assert Elems(gray) == {o} + Elems(gray[1..]);
    assert forall p :: p in m ==> IsWhite(m'[p]) == IsWhite(m[p]);
  }

  lemma PopLists(h: Heap, m: Marks, lists: seq<Obj>)
    requires ListsOk(h, m, lists) && lists != []
    ensures ListsOk(h, m[lists[0] := Black], lists[1..])
  {
    var m' := m[lists[0] := Black];
    forall o | o in lists[1..] ensures o in h && o in m' && m'[o].Gray? && Traversable(h[o].tt) {
      var i :| 0 <= i < |lists[1..]| && lists[1..][i] == o;
      assert lists[i + 1] == o && lists[0] != lists[i + 1];
    }
    forall o | o in m' && o in h && m'[o].Gray? && Traversable(h[o].tt) ensures o in lists[1..] {
      assert o in lists;
    }
  }

  /** A thread stays gray: it moves to the list of those traversed again at the end. */
  lemma PopThread(h: Heap, m: Marks, cw: Colour, gray: seq<Obj>, grayagain: seq<Obj>, pend: set<Obj>)
    requires MarkState(h, m, cw, gray, grayagain, pend, {}) && gray != []
    ensures gray[0] in m && m[gray[0]].Gray?
    ensures MarkState(h, m, cw, gray[1..], [gray[0]] + grayagain, pend + {gray[0]}, {})
  {
    var o := gray[0];
    assert o in gray + grayagain;
    var lists := gray[1..] + ([o] + grayagain);
    assert Elems(gray) == {o} + Elems(gray[1..]);
    MoveLists(h, m, gray, grayagain);
  }

  lemma MoveLists(h: Heap, m: Marks, gray: seq<Obj>, grayagain: seq<Obj>)
    requires ListsOk(h, m, gray + grayagain) && gray != []
    ensures ListsOk(h, m, gray[1..] + ([gray[0]] + grayagain))
  {
    var a := gray + grayagain;
    var b := gray[1..] + ([gray[0]] + grayagain);
    var n := |gray| - 1;
    forall i, j | 0 <= i < j < |b| ensures b[i] != b[j] {
      assert b[i] == if i < n then a[i + 1] else if i == n then a[0] else a[i];
      assert b[j] == if j < n then a[j + 1] else if j == n then a[0] else a[j];
    }
    forall o ensures o in b <==> o in a {
      if o in gray { assert o == gray[0] || o in gray[1..]; }
    }
  }

  // ----- what is alive -----

  predicate Dead(c: Colour, cw: Colour) {
    c == OtherWhite(cw)
  }

  /** What is not dead refers to objects of the heap that are not dead. */
  ghost predicate Live(h: Heap, m: Marks, cw: Colour) {
    forall o, p :: o in m && !Dead(m[o], cw) && Edge(h, o, p) ==> p in m && !Dead(m[p], cw)
  }

  ghost predicate AllLive(os: set<Obj>, m: Marks, cw: Colour) {
    forall o :: o in os ==> o in m && !Dead(m[o], cw)
  }

  ghost predicate AllMarked(os: set<Obj>, m: Marks) {
    forall o :: o in os ==> o in m && !IsWhite(m[o])
  }

  function RefsOf(vs: seq<Value>): set<Obj> {
    set i | 0 <= i < |vs| && vs[i].Ref? :: vs[i].o
  }

  /** Whatever the roots reach is in the heap and not dead. */
  lemma ReachLive(h: Heap, m: Marks, cw: Colour, roots: set<Obj>, o: Obj)
    requires Live(h, m, cw) && AllLive(roots, m, cw) && Reach(h, roots, o)
    ensures o in m && !Dead(m[o], cw)
  {
    var s := iset p | p in m && !Dead(m[p], cw);
    ReachClosed(h, roots, s, o);
  }

  /** Nothing is dead while marking, so nothing dangles. */
  lemma LiveNoDangling(h: Heap, m: Marks, cw: Colour)
    requires m.Keys == h.Keys && NoneDead(m, cw)
    ensures Live(h, m, cw) <==> NoDangling(h)
  {
  }

  ghost predicate AllCurrent(m: Marks, cw: Colour) {
    forall o :: o in m ==> m[o] == cw
  }

  lemma FreshMarks(h: Heap, m: Marks, cw: Colour, s: iset<Obj>)
    requires m.Keys == h.Keys && WFHeap(h) && IsWhite(cw) && AllCurrent(m, cw) && Live(h, m, cw)
    ensures MarkState(h, m, cw, [], [], {}, {}) && MarkedIn(m, s)
  {
  }

  lemma MorePending(h: Heap, m: Marks, cw: Colour, gray: seq<Obj>, grayagain: seq<Obj>, pend: set<Obj>, more: set<Obj>)
    requires MarkState(h, m, cw, gray, grayagain, pend, {}) && pend + Elems(gray) <= more + Elems(gray)
    ensures MarkState(h, m, cw, gray, grayagain, more, {})
  {
  }

  /** The gray-again list becomes the gray list. */
  lemma GrayAgain(h: Heap, m: Marks, cw: Colour, grayagain: seq<Obj>, pend: set<Obj>)
    requires MarkState(h, m, cw, [], grayagain, pend, {}) && pend <= Elems(grayagain)
    ensures MarkState(h, m, cw, grayagain, [], {}, {})
  {
    assert [] + grayagain == grayagain == grayagain + [];
  }

  /** When nothing is pending any more, what is white is dead after the flip. */
  lemma Flip(h: Heap, m: Marks, cw: Colour, grayagain: seq<Obj>, roots: set<Obj>)
    requires MarkState(h, m, cw, [], grayagain, {}, {}) && AllMarked(roots, m)
    ensures Live(h, m, OtherWhite(cw)) && AllLive(roots, m, OtherWhite(cw)) && IsWhite(OtherWhite(cw))
    ensures forall o :: o in m ==> (Dead(m[o], OtherWhite(cw)) <==> IsWhite(m[o]))
  {
    forall o, p | o in m && !Dead(m[o], OtherWhite(cw)) && Edge(h, o, p) ensures p in m && !Dead(m[p], OtherWhite(cw)) {
      assert o !in {} + Elems([]);
    }
  }
}
