/** What the running program does to the heap between two steps of the collector, as far
    as the collector's invariant is concerned. */
module Mutator {
  import opened Common
  import opened GcHeap
  import opened GcLists
  import opened StringTables
  import opened Collector

  /** The collector's fields at one moment. */
  datatype State = State(hash: Text -> nat, heap: Heap, marked: Marks, fixed: set<Obj>, currentwhite: Colour,
      gcstate: Phase,
    gray: seq<Obj>, grayagain: seq<Obj>, rootgc: seq<Obj>, sweepgc: nat, strt: seq<seq<Obj>>, nuse: nat, sweepstrgc:
        nat,
    openupval: map<Obj, seq<Obj>>, uvhead: seq<Obj>, mainthread: Obj, registry: Value, mt: seq<Value>, running: Obj)

  ghost predicate ListsOf(s: State) {
    Lists(s.heap, s.rootgc, s.strt, s.hash, s.openupval, s.uvhead) && s.nuse == Chained(s.strt)
  }

  ghost predicate LiveOf(s: State) {
    LiveState(s.heap, s.marked, s.currentwhite, s.fixed, s.mainthread,
        RootsOf(s.mainthread, s.running, s.registry, s.mt))
  }

  /** The invariant of the phase, when the objects `late` still need their barrier. */
  ghost predicate PhaseOk(s: State, late: set<Obj>) {
    match s.gcstate
    case Propagate =>
      && MarkState(s.heap, s.marked, s.currentwhite, s.gray, s.grayagain, Elems(s.grayagain) + Elems(s.uvhead) + late,
          {})
      && AllMarked({s.mainthread} + RefsOf([s.registry]), s.marked)
    case SweepString => StringsSwept(s.marked, s.currentwhite, s.strt, s.sweepstrgc) && s.sweepstrgc < |s.strt|
        && s.sweepgc == 0 && OpenNotBlack(s.heap, s.marked)
    case Sweep => StringsCurrent(s.heap, s.marked, s.currentwhite)
        && RootSwept(s.marked, s.currentwhite, s.rootgc, s.openupval, s.sweepgc) && OpenNotBlack(s.heap, s.marked)
    case _ => AllCurrent(s.marked, s.currentwhite)
  }

  ghost predicate Good(s: State, late: set<Obj>) {
    ListsOf(s) && LiveOf(s) && PhaseOk(s, late)
  }

  predicate Live1(m: Marks, cw: Colour, v: Value) {
    v.Ref? ==> v.o in m && !Dead(m[v.o], cw)
  }

  ghost predicate AllLiveValues(m: Marks, cw: Colour, vs: seq<Value>) {
    forall i :: 0 <= i < |vs| ==> Live1(m, cw, vs[i])
  }

  /** Whatever vs adds to what o holds is not dead. */
  ghost predicate ChangesLive(h: Heap, m: Marks, cw: Colour, o: Obj, vs: seq<Value>)
    requires o in h
  {
    forall i :: 0 <= i < |vs| ==> Live1(m, cw, vs[i]) || (i < |Values(h, o)| && vs[i] == Values(h, o)[i])
  }

  function Written(h: Heap, o: Obj, vs: seq<Value>): Heap
    requires o in h
  {
    h[o := Shape(h[o].tt, Fields(vs))]
  }

  /** o may be made to hold vs: it keeps its kind, and no open upvalue loses its slot. */
  ghost predicate CanHold(h: Heap, o: Obj, vs: seq<Value>) {
    && o in h && h[o].body.Fields?
    && (h[o].tt == UPVAL ==> |vs| == 1)
    && (h[o].tt == THREAD ==> |vs| >= 1 && forall u :: IsOpen(h, u) && h[u].body.thread == o ==> h[u].body.index < |vs|)
  }

  lemma WrittenHeap(h: Heap, o: Obj, vs: seq<Value>)
    requires WFHeap(h) && CanHold(h, o, vs)
    ensures var h' := Written(h, o, vs);
            && WFHeap(h') && Values(h', o) == vs
            && (forall x :: x in h && x != o && !(IsOpen(h, x) && h[x].body.thread == o) ==>
                Values(h', x) == Values(h, x))
            && (forall x :: IsOpen(h, x) && h[x].body.thread == o ==> |Values(h', x)| == 1 && Values(h', x)[0] in vs)
  {
    var h' := Written(h, o, vs);
    assert WFObject(h, o);
    forall x | x in h' ensures WFObject(h', x) {
      assert WFObject(h, x);
    }
    forall x | IsOpen(h, x) && h[x].body.thread == o ensures |Values(h', x)| == 1 && Values(h', x)[0] in vs {
      assert WFObject(h, x);
    }
  }

  ghost predicate Added(h: Heap, o: Obj, vs: seq<Value>, p: Obj)
    requires o in h
  {
    exists i :: 0 <= i < |vs| && vs[i] == Ref(p) && !(i < |Values(h, o)| && vs[i] == Values(h, o)[i])
  }

  /** A new reference leads to one of the values written, and starts in o or in an open
      upvalue whose slot is in o. */
  lemma WrittenEdge(h: Heap, o: Obj, vs: seq<Value>, x: Obj, p: Obj)
    requires WFHeap(h) && CanHold(h, o, vs) && Edge(Written(h, o, vs), x, p)
    ensures Edge(h, x, p) || (Added(h, o, vs, p) && (x == o || (IsOpen(h, x) && h[x].body.thread == o)))
  {
    WrittenHeap(h, o, vs);
    if x == o {
      var i :| 0 <= i < |vs| && vs[i] == Ref(p);
      if i < |Values(h, o)| && vs[i] == Values(h, o)[i] { assert Edge(h, x, p); }
    } else if IsOpen(h, x) && h[x].body.thread == o {
      assert WFObject(h, x);
      var i := h[x].body.index;
      assert vs[i] == Ref(p);
      if vs[i] == Values(h, o)[i] { assert Values(h, x) == [vs[i]]; assert Edge(h, x, p); }
    }
  }

  lemma AddedLive(h: Heap, m: Marks, cw: Colour, o: Obj, vs: seq<Value>, p: Obj)
    requires o in h && Added(h, o, vs, p) && ChangesLive(h, m, cw, o, vs)
    ensures p in m && !Dead(m[p], cw)
  {
    var i :| 0 <= i < |vs| && vs[i] == Ref(p) && !(i < |Values(h, o)| && vs[i] == Values(h, o)[i]);
    assert Live1(m, cw, vs[i]);
  }

  lemma WrittenLive(h: Heap, m: Marks, cw: Colour, fixed: set<Obj>, mainthread: Obj, roots: set<Obj>, o: Obj,
      vs: seq<Value>)
    requires LiveState(h, m, cw, fixed, mainthread, roots) && CanHold(h, o, vs) && ChangesLive(h, m, cw, o, vs)
    ensures LiveState(Written(h, o, vs), m, cw, fixed, mainthread, roots)
  {
    hide Added, ChangesLive, Values;
    var h' := Written(h, o, vs);
    WrittenHeap(h, o, vs);
    forall x, p | x in m && !Dead(m[x], cw) && Edge(h', x, p) ensures p in m && !Dead(m[p], cw) {
      WrittenEdge(h, o, vs, x, p);
      if !Edge(h, x, p) { AddedLive(h, m, cw, o, vs, p); }
    }
  }

  lemma WrittenLists(h: Heap, rootgc: seq<Obj>, strt: seq<seq<Obj>>, hash: Text -> nat, ou: map<Obj, seq<Obj>>,
      uv: seq<Obj>, o: Obj, vs: seq<Value>)
    requires Lists(h, rootgc, strt, hash, ou, uv) && o in h && h[o].body.Fields?
    ensures Lists(Written(h, o, vs), rootgc, strt, hash, ou, uv)
  {
    hide RootList, StringTable, OpenLists, Written;
    WrittenRoot(h, rootgc, o, vs);
    WrittenStrings(h, strt, hash, o, vs);
    WrittenOpen(h, ou, uv, o, vs);
  }

  lemma WrittenRoot(h: Heap, rootgc: seq<Obj>, o: Obj, vs: seq<Value>)
    requires RootList(h, rootgc) && o in h && h[o].body.Fields?
    ensures RootList(Written(h, o, vs), rootgc)
  {
  }

  lemma WrittenStrings(h: Heap, strt: seq<seq<Obj>>, hash: Text -> nat, o: Obj, vs: seq<Value>)
    requires StringTable(h, strt, hash) && o in h && h[o].body.Fields?
    ensures StringTable(Written(h, o, vs), strt, hash)
  {
  }

  lemma WrittenOpen(h: Heap, ou: map<Obj, seq<Obj>>, uv: seq<Obj>, o: Obj, vs: seq<Value>)
    requires OpenLists(h, ou, uv) && o in h && h[o].body.Fields?
    ensures OpenLists(Written(h, o, vs), ou, uv)
  {
    var h' := Written(h, o, vs);
    forall th | th in ou ensures Descending(h', th, ou[th]) {
      assert Descending(h, th, ou[th]);
    }
    assert forall u :: IsOpen(h', u) <==> IsOpen(h, u);
  }

  /** While marking, the object written to may refer to a white one now. */
  lemma WrittenMarks(h: Heap, m: Marks, cw: Colour, gray: seq<Obj>, grayagain: seq<Obj>, pend: set<Obj>, o: Obj,
      vs: seq<Value>)
    requires MarkState(h, m, cw, gray, grayagain, pend, {}) && CanHold(h, o, vs) && ChangesLive(h, m, cw, o, vs)
    requires h[o].tt == THREAD ==> forall u :: IsOpen(h, u) ==> u in pend
    ensures MarkState(Written(h, o, vs), m, cw, gray, grayagain, pend + {o}, {})
  {
    hide Values, WFHeap, Edge, EdgesOk, NoDangling, ChangesLive, CanHold, Elems, NoDup;
    WrittenHeap(h, o, vs);
    WrittenEdges(h, m, cw, pend + Elems(gray), o, vs);
    WrittenColours(h, m, gray + grayagain, o, vs);
    assert pend + Elems(gray) + {o} == pend + {o} + Elems(gray);
  }

  lemma WrittenColours(h: Heap, m: Marks, lists: seq<Obj>, o: Obj, vs: seq<Value>)
    requires KindsOk(h, m, {}) && ListsOk(h, m, lists) && CanHold(h, o, vs)
    ensures KindsOk(Written(h, o, vs), m, {}) && ListsOk(Written(h, o, vs), m, lists)
        && Written(h, o, vs).Keys == h.Keys
  {
    hide NoDup;
  }

  lemma WrittenEdges(h: Heap, m: Marks, cw: Colour, pend: set<Obj>, o: Obj, vs: seq<Value>)
    requires m.Keys == h.Keys && WFHeap(h) && NoDangling(h) && EdgesOk(h, m, pend)
    requires CanHold(h, o, vs) && ChangesLive(h, m, cw, o, vs)
    requires h[o].tt == THREAD ==> forall u :: IsOpen(h, u) ==> u in pend
    ensures NoDangling(Written(h, o, vs)) && EdgesOk(Written(h, o, vs), m, pend + {o})
  {
    hide Added, ChangesLive, Values;
    var h' := Written(h, o, vs);
    forall x, p | Edge(h', x, p) ensures p in h' {
      WrittenEdge(h, o, vs, x, p);
      if !Edge(h, x, p) { AddedLive(h, m, cw, o, vs, p); }
    }
    forall x, p | x in m && !IsWhite(m[x]) && Edge(h', x, p) && p in m && IsWhite(m[p])
      ensures x in pend + {o}
    {
      WrittenEdge(h, o, vs, x, p);
      if IsOpen(h, x) { assert WFObject(h, x); }
    }
  }

  /** An object that is white, waits in a list, or refers to marked objects only is not pending. */
  lemma NotPending(h: Heap, m: Marks, cw: Colour, gray: seq<Obj>, grayagain: seq<Obj>, pend: set<Obj>, o: Obj)
    requires MarkState(h, m, cw, gray, grayagain, pend + {o}, {}) && o in m
    requires IsWhite(m[o]) || o in pend || o in gray || forall p :: Ref(p) in Values(h, o) ==> p in m && !IsWhite(m[p])
    ensures MarkState(h, m, cw, gray, grayagain, pend, {})
  {
    if o in gray { assert o in Elems(gray); }
    forall x, p | x in m && !IsWhite(m[x]) && Edge(h, x, p) && p in m && IsWhite(m[p]) ensures x in pend + Elems(gray) {
      assert x in pend + {o} + Elems(gray);
    }
  }

  /** A black object refers to marked ones only. */
  lemma BlackDone(h: Heap, m: Marks, cw: Colour, gray: seq<Obj>, grayagain: seq<Obj>, uvhead: seq<Obj>, o: Obj)
    requires MarkState(h, m, cw, gray, grayagain, Elems(grayagain) + Elems(uvhead), {}) && o in m && m[o].Black?
    requires forall u :: u in uvhead ==> IsOpen(h, u)
    ensures forall p :: Ref(p) in Values(h, o) ==> p in m && !IsWhite(m[p])
    ensures o !in gray + grayagain
  {
    forall p | Ref(p) in Values(h, o) ensures p in m && !IsWhite(m[p]) {
      assert Edge(h, o, p);
      assert o !in gray + grayagain && o !in uvhead;
      assert o in gray ==> o in gray + grayagain;
      assert o in grayagain ==> o in gray + grayagain;
    }
  }

  /** luaC_barrierback: the table is gray again and will be traversed once more. */
  lemma TurnGray(h: Heap, m: Marks, cw: Colour, gray: seq<Obj>, grayagain: seq<Obj>, pend: set<Obj>, o: Obj)
    requires MarkState(h, m, cw, gray, grayagain, pend, {}) && o in m && m[o].Black? && Traversable(h[o].tt)
    ensures MarkState(h, m[o := Gray], cw, gray, [o] + grayagain, pend, {})
  {
    var m' := m[o := Gray];
    MiddleLists(h, m, gray, grayagain, o);
    assert forall x :: x in m ==> IsWhite(m'[x]) == IsWhite(m[x]);
    assert WFObject(h, o);
  }

  lemma MiddleLists(h: Heap, m: Marks, gray: seq<Obj>, grayagain: seq<Obj>, o: Obj)
    requires ListsOk(h, m, gray + grayagain) && o in m && o in h && m[o].Black? && Traversable(h[o].tt)
    ensures ListsOk(h, m[o := Gray], gray + ([o] + grayagain))
  {
    var a, b := gray + grayagain, gray + ([o] + grayagain);
    assert o !in a;
    forall i, j | 0 <= i < j < |b| ensures b[i] != b[j] {
      assert b[i] == (if i < |gray| then a[i] else if i == |gray| then o else a[i - 1]);
      assert b[j] == (if j < |gray| then a[j] else if j == |gray| then o else a[j - 1]);
    }
    forall x ensures x in b <==> x in a || x == o {
      assert x in b <==> x in gray || x in [o] + grayagain;
    }
  }

  /** ... and in any phase that kills nobody. */
  lemma GrayLive(h: Heap, m: Marks, cw: Colour, fixed: set<Obj>, mainthread: Obj, roots: set<Obj>, o: Obj, c: Colour)
    requires LiveState(h, m, cw, fixed, mainthread, roots) && o in m && !Dead(m[o], cw) && !Dead(c, cw)
    ensures LiveState(h, m[o := c], cw, fixed, mainthread, roots)
  {
    var m' := m[o := c];
    assert forall x :: x in m ==> Dead(m'[x], cw) == Dead(m[x], cw);
  }

  // ----- writes and barriers -----

  /** A write; o may need a barrier now. */
  lemma WriteOk(s: State, o: Obj, vs: seq<Value>)
    requires Good(s, {}) && CanHold(s.heap, o, vs) && ChangesLive(s.heap, s.marked, s.currentwhite, o, vs)
    ensures Good(s.(heap := Written(s.heap, o, vs)), {o})
  {
    hide Lists, LiveState, MarkState, CanHold, ChangesLive, Written, RootsOf, Chained, StringsSwept, RootSwept,
        AllMarked, AllCurrent, StringsCurrent, OpenNotBlack;
    HoldsFields(s.heap, o, vs);
    var s' := s.(heap := Written(s.heap, o, vs));
    WrittenLive(s.heap, s.marked, s.currentwhite, s.fixed, s.mainthread,
        RootsOf(s.mainthread, s.running, s.registry, s.mt), o, vs);
    HoldsFields(s.heap, o, vs);
    WrittenLists(s.heap, s.rootgc, s.strt, s.hash, s.openupval, s.uvhead, o, vs);
    WrittenKinds(s.heap, s.marked, s.currentwhite, o, vs);
    if s.gcstate.Propagate? {
      var pend := Elems(s.grayagain) + Elems(s.uvhead);
      assert pend + {} == pend;
      OpenPending(s.heap, s.rootgc, s.strt, s.hash, s.openupval, s.uvhead, Elems(s.grayagain));
      WrittenMarks(s.heap, s.marked, s.currentwhite, s.gray, s.grayagain, pend, o, vs);
    }
  }

  lemma HoldsFields(h: Heap, o: Obj, vs: seq<Value>)
    requires CanHold(h, o, vs)
    ensures o in h && h[o].body.Fields?
  {
  }

  lemma WrittenKinds(h: Heap, m: Marks, cw: Colour, o: Obj, vs: seq<Value>)
    requires o in h && h[o].body.Fields?
    ensures OpenNotBlack(h, m) ==> OpenNotBlack(Written(h, o, vs), m)
    ensures StringsCurrent(h, m, cw) ==> StringsCurrent(Written(h, o, vs), m, cw)
  {
    if OpenNotBlack(h, m) {
      forall u | IsOpen(Written(h, o, vs), u) && u in m ensures !m[u].Black? { assert IsOpen(h, u); }
    }
  }

  lemma OpenPending(h: Heap, rootgc: seq<Obj>, strt: seq<seq<Obj>>, hash: Text -> nat, ou: map<Obj, seq<Obj>>,
      uv: seq<Obj>, ga: set<Obj>)
    requires Lists(h, rootgc, strt, hash, ou, uv)
    ensures forall u :: IsOpen(h, u) ==> u in ga + Elems(uv)
  {
  }

  /** No barrier is needed for an object that is white, still to be traversed, or refers to
      marked objects only; nor outside the mark phase. */
  lemma NoBarrier(s: State, o: Obj)
    requires Good(s, {o}) && o in s.marked
    requires
      && s.gcstate.Propagate? && !IsWhite(s.marked[o])
      && !(s.marked[o].Gray? && o in s.heap && Traversable(s.heap[o].tt)) ==>
      forall p :: o in s.heap && Ref(p) in Values(s.heap, o) ==> p in s.marked && !IsWhite(s.marked[p])
    ensures Good(s, {})
  {
    hide Lists, LiveState, RootsOf, Chained, AllMarked;
    if s.gcstate.Propagate? {
      var pend := Elems(s.grayagain) + Elems(s.uvhead);
      assert pend + {} == pend;
      if s.marked[o].Gray? && o in s.heap && Traversable(s.heap[o].tt) {
        assert o in s.gray + s.grayagain;
        assert o in s.gray || o in s.grayagain;
      }
      NotPending(s.heap, s.marked, s.currentwhite, s.gray, s.grayagain, pend, o);
    }
  }

  /** An object that is not dead changes its colour, in a phase that is not marking. */
  lemma Recolour(s: State, o: Obj, c: Colour)
    requires Good(s, {o}) && !s.gcstate.Propagate? && o in s.marked && !Dead(s.marked[o], s.currentwhite)
    requires c == s.currentwhite || (s.marked[o] == Black && c == Gray)
    ensures Good(s.(marked := s.marked[o := c]), {})
  {
    hide Lists, RootsOf, Chained, Live, AllLive, WFHeap, FixedOk;
    GrayLive(s.heap, s.marked, s.currentwhite, s.fixed, s.mainthread,
        RootsOf(s.mainthread, s.running, s.registry, s.mt), o, c);
  }

  /** luaC_barrierback in the sweep phases: the gray list does not matter there. */
  lemma BackSweeping(s: State, o: Obj)
    requires Good(s, {o}) && !s.gcstate.Propagate? && o in s.marked && s.marked[o].Black? && !s.gcstate.Propagate?
    ensures Good(s.(marked := s.marked[o := Gray], grayagain := [o] + s.grayagain), {})
  {
    hide Lists, RootsOf, Chained, LiveState, StringsSwept, RootSwept, AllCurrent, StringsCurrent, OpenNotBlack;
    StateWF(s.heap, s.marked, s.currentwhite, s.fixed, s.mainthread,
        RootsOf(s.mainthread, s.running, s.registry, s.mt));
    Recolour(s, o, Gray);
  }

  lemma BackMarking(s: State, o: Obj)
    requires Good(s, {o}) && s.gcstate.Propagate? && o in s.marked && o in s.heap && s.marked[o].Black?
        && Traversable(s.heap[o].tt)
    ensures Good(s.(marked := s.marked[o := Gray], grayagain := [o] + s.grayagain), {})
  {
    hide Lists, RootsOf, Chained, LiveState, MarkState;
    var pend := Elems(s.grayagain) + Elems(s.uvhead) + {o};
    StateWF(s.heap, s.marked, s.currentwhite, s.fixed, s.mainthread,
        RootsOf(s.mainthread, s.running, s.registry, s.mt));
    TurnGray(s.heap, s.marked, s.currentwhite, s.gray, s.grayagain, pend, o);
    var more := Elems([o] + s.grayagain) + Elems(s.uvhead) + {};
    assert pend <= more;
    MorePending(s.heap, s.marked[o := Gray], s.currentwhite, s.gray, [o] + s.grayagain, pend, more);
    GrayLive(s.heap, s.marked, s.currentwhite, s.fixed, s.mainthread,
        RootsOf(s.mainthread, s.running, s.registry, s.mt), o, Gray);
  }

  /** Black objects exist only between the start of marking and the end of the sweep. */
  lemma BlackPhase(s: State, late: set<Obj>, o: Obj)
    requires Good(s, late) && o in s.marked && s.marked[o].Black?
    ensures !s.gcstate.Pause? && !s.gcstate.Finalize?
    ensures s.gcstate.Propagate? && o in s.heap ==> s.heap[o].tt != THREAD && !s.heap[o].body.Slot?
  {
    hide Lists, Live, AllLive, RootsOf, Chained, WFHeap, FixedOk, StringsSwept, RootSwept, StringsCurrent,
        OpenNotBlack, ListsOk, EdgesOk, AllMarked, NoDangling, NoneDead;
  }

  /** What a black object refers to before the write. */
  lemma BlackRefs(s: State, o: Obj)
    requires Good(s, {}) && s.gcstate.Propagate? && o in s.marked && s.marked[o].Black?
    ensures forall p :: o in s.heap && Ref(p) in Values(s.heap, o) ==> p in s.marked && !IsWhite(s.marked[p])
  {
    hide LiveState, RootsOf, Chained, AllMarked;
    var pend := Elems(s.grayagain) + Elems(s.uvhead);
    assert pend + {} == pend;
    assert forall u :: u in s.uvhead ==> IsOpen(s.heap, u);
    BlackDone(s.heap, s.marked, s.currentwhite, s.gray, s.grayagain, s.uvhead, o);
  }

  /** luaC_barrierf while marking: the new value has been marked. */
  lemma AfterBarrier(s: State, o: Obj, m: Marks, gray: seq<Obj>)
    requires Good(s, {o}) && s.gcstate.Propagate? && Grows(s.marked, m)
    requires MarkState(s.heap, m, s.currentwhite, gray, s.grayagain, Elems(s.grayagain) + Elems(s.uvhead) + {o}, {})
    ensures Good(s.(marked := m, gray := gray), {o})
  {
    hide Lists, RootsOf, Chained, KindsOk, ListsOk, EdgesOk, WFHeap, FixedOk;
    LiveNoDangling(s.heap, m, s.currentwhite);
  }

  // ----- new objects -----

  function NewOpen(ou: map<Obj, seq<Obj>>, o: Obj, tt: Tag): map<Obj, seq<Obj>> {
    if tt == THREAD then ou[o := []] else ou
  }

  predicate CanCreate(tt: Tag, vs: seq<Value>) {
    tt != STRING && (tt == UPVAL ==> |vs| == 1) && (tt == THREAD ==> |vs| >= 1)
  }

  lemma CreatedHeap(h: Heap, o: Obj, b: Shape)
    requires WFHeap(h) && o !in h
    requires b.body.Slot? ==> b.body.thread in h
    ensures var h' := h[o := b];
            && (forall x :: x in h ==> WFObject(h', x) && Values(h', x) == Values(h, x))
            && (forall x, p :: x != o ==> (Edge(h', x, p) <==> Edge(h, x, p)))
            && (b.body.Slot? ==>
                Values(h', o) ==
                (var th := h[b.body.thread]; if th.body.Fields? && b.body.index < |th.body.vals|
                then [th.body.vals[b.body.index]] else []))
  {
    var h' := h[o := b];
    forall x | x in h ensures WFObject(h', x) && Values(h', x) == Values(h, x) {
      assert WFObject(h, x);
    }
  }

  lemma CreatedWF(h: Heap, o: Obj, b: Shape)
    requires WFHeap(h) && o !in h && (b.body.Slot? ==> b.body.thread in h) && WFObject(h[o := b], o)
    ensures WFHeap(h[o := b])
  {
    CreatedHeap(h, o, b);
  }

  /** A new object that refers to live ones. */
  lemma CreatedLive(h: Heap, m: Marks, cw: Colour, fixed: set<Obj>, mainthread: Obj, roots: set<Obj>, o: Obj, b: Shape)
    requires LiveState(h, m, cw, fixed, mainthread, roots) && o !in h && (b.body.Slot? ==> b.body.thread in h)
    requires var h' := h[o := b]; WFObject(h', o) && forall p :: Ref(p) in Values(h', o) ==> p in m && !Dead(m[p], cw)
    ensures LiveState(h[o := b], m[o := cw], cw, fixed, mainthread, roots)
  {
    hide WFHeap, WFObject, Values;
    var h', m' := h[o := b], m[o := cw];
    CreatedWF(h, o, b);
    CreatedHeap(h, o, b);
    forall x, p | x in m' && !Dead(m'[x], cw) && Edge(h', x, p) ensures p in m' && !Dead(m'[p], cw) {
      if x != o { assert Edge(h, x, p); }
    }
  }

  lemma CreatedEdges(h: Heap, m: Marks, o: Obj, b: Shape, cw: Colour, pend: set<Obj>, more: set<Obj>)
    requires WFHeap(h) && NoDangling(h) && EdgesOk(h, m, pend) && m.Keys == h.Keys && o !in h && pend <= more
        && IsWhite(cw)
    requires (b.body.Slot? ==> b.body.thread in h) && forall p :: Ref(p) in Values(h[o := b], o) ==> p in m
    ensures NoDangling(h[o := b]) && EdgesOk(h[o := b], m[o := cw], more)
  {
    hide WFHeap, WFObject, Values;
    var h', m' := h[o := b], m[o := cw];
    CreatedHeap(h, o, b);
    forall x, p | Edge(h', x, p) ensures p in h' {
      if x != o { assert Edge(h, x, p); }
    }
    forall x, p | x in m' && !IsWhite(m'[x]) && Edge(h', x, p) && p in m' && IsWhite(m'[p]) ensures x in more {
      assert Edge(h, x, p) && p in m;
    }
  }

  lemma CreatedMarks(h: Heap, m: Marks, cw: Colour, gray: seq<Obj>, grayagain: seq<Obj>, pend: set<Obj>,
      more: set<Obj>, o: Obj, b: Shape)
    requires MarkState(h, m, cw, gray, grayagain, pend, {}) && o !in h && (b.body.Slot? ==> b.body.thread in h)
        && pend <= more
    requires var h' := h[o := b]; WFObject(h', o) && forall p :: Ref(p) in Values(h', o) ==> p in m
    ensures MarkState(h[o := b], m[o := cw], cw, gray, grayagain, more, {})
  {
    hide WFHeap, WFObject, Values, EdgesOk, NoDangling;
    CreatedWF(h, o, b);
    CreatedEdges(h, m, o, b, cw, pend + Elems(gray), more + Elems(gray));
  }

  lemma LinkRoot(h: Heap, rootgc: seq<Obj>, o: Obj, tt: Tag, vs: seq<Value>)
    requires RootList(h, rootgc) && o !in h && tt != STRING
    ensures RootList(h[o := Shape(tt, Fields(vs))], [o] + rootgc)
  {
    var r := [o] + rootgc;
    assert o !in rootgc;
    forall i, j | 0 <= i < j < |r| ensures r[i] != r[j] {
      assert r[j] == rootgc[j - 1];
    }
  }

  lemma LinkStrings(h: Heap, strt: seq<seq<Obj>>, hash: Text -> nat, o: Obj, b: Shape)
    requires StringTable(h, strt, hash) && o !in h && !b.body.Bytes?
    ensures StringTable(h[o := b], strt, hash)
  {
  }

  lemma LinkOpen(h: Heap, ou: map<Obj, seq<Obj>>, uv: seq<Obj>, o: Obj, tt: Tag, vs: seq<Value>)
    requires OpenLists(h, ou, uv) && o !in h
    ensures OpenLists(h[o := Shape(tt, Fields(vs))], NewOpen(ou, o, tt), uv)
  {
    var h', ou' := h[o := Shape(tt, Fields(vs))], NewOpen(ou, o, tt);
    assert forall u :: IsOpen(h', u) <==> IsOpen(h, u);
    forall th | th in ou' ensures Descending(h', th, ou'[th]) {
      if th != o { assert Descending(h, th, ou[th]); }
    }
  }

  lemma LinkLists(h: Heap, rootgc: seq<Obj>, strt: seq<seq<Obj>>, hash: Text -> nat, ou: map<Obj, seq<Obj>>,
      uv: seq<Obj>, o: Obj, tt: Tag, vs: seq<Value>)
    requires Lists(h, rootgc, strt, hash, ou, uv) && o !in h && tt != STRING
    ensures Lists(h[o := Shape(tt, Fields(vs))], [o] + rootgc, strt, hash, NewOpen(ou, o, tt), uv)
  {
    hide RootList, StringTable, OpenLists;
    LinkRoot(h, rootgc, o, tt, vs);
    LinkStrings(h, strt, hash, o, Shape(tt, Fields(vs)));
    LinkOpen(h, ou, uv, o, tt, vs);
  }

  lemma LinkPrefix(m: Marks, cw: Colour, rootgc: seq<Obj>, ou: map<Obj, seq<Obj>>, n: nat, o: Obj, tt: Tag)
    requires RootSwept(m, cw, rootgc, ou, n) && o !in m && o !in ou
    ensures RootSwept(m[o := cw], cw, [o] + rootgc, NewOpen(ou, o, tt), if n > 0 then n + 1 else 0)
  {
    var r := [o] + rootgc;
    forall i | 0 < i < n + 1 ensures r[i] == rootgc[i - 1] {}
  }

  ghost function Linked(s: State, o: Obj, tt: Tag, vs: seq<Value>): State {
    s.(heap := s.heap[o := Shape(tt, Fields(vs))], marked := s.marked[o := s.currentwhite], rootgc := [o] + s.rootgc,
       sweepgc := if s.sweepgc > 0 then s.sweepgc + 1 else 0, openupval := NewOpen(s.openupval, o, tt))
  }

  /** luaC_link. */
  lemma LinkOk(s: State, o: Obj, tt: Tag, vs: seq<Value>)
    requires Good(s, {}) && o !in s.heap && CanCreate(tt, vs) && AllLiveValues(s.marked, s.currentwhite, vs)
    ensures Good(Linked(s, o, tt, vs), {})
  {
    hide Lists, RootsOf, Chained, Live, AllLive, FixedOk, MarkState, RootSwept, Values, WFHeap;
    var b := Shape(tt, Fields(vs));
    FieldsOk(s.heap, s.marked, s.currentwhite, o, tt, vs);
    CreatedLive(s.heap, s.marked, s.currentwhite, s.fixed, s.mainthread,
        RootsOf(s.mainthread, s.running, s.registry, s.mt), o, b);
    LinkLists(s.heap, s.rootgc, s.strt, s.hash, s.openupval, s.uvhead, o, tt, vs);
    hide LiveState;
    LinkPhase(s, o, tt, vs);
  }

  lemma FieldsOk(h: Heap, m: Marks, cw: Colour, o: Obj, tt: Tag, vs: seq<Value>)
    requires CanCreate(tt, vs) && AllLiveValues(m, cw, vs)
    ensures var h' := h[o := Shape(tt, Fields(vs))]; WFObject(h', o) && Values(h', o) == vs && forall p ::
        Ref(p) in vs ==> p in m && !Dead(m[p], cw)
  {
    forall p | Ref(p) in vs ensures p in m && !Dead(m[p], cw) {
      var i :| 0 <= i < |vs| && vs[i] == Ref(p);
      assert Live1(m, cw, vs[i]);
    }
  }

  lemma NotListed(h: Heap, rootgc: seq<Obj>, strt: seq<seq<Obj>>, hash: Text -> nat, ou: map<Obj, seq<Obj>>,
      uv: seq<Obj>, o: Obj)
    requires Lists(h, rootgc, strt, hash, ou, uv) && o !in h
    ensures o !in ou && o !in rootgc && (forall b :: 0 <= b < |strt| ==> o !in strt[b])
    ensures forall th :: th in ou ==> o !in ou[th]
  {
    forall th | th in ou ensures o !in ou[th] { assert Descending(h, th, ou[th]); }
  }

  lemma LinkPhase(s: State, o: Obj, tt: Tag, vs: seq<Value>)
    requires Good(s, {}) && o !in s.heap && CanCreate(tt, vs) && AllLiveValues(s.marked, s.currentwhite, vs)
    ensures PhaseOk(Linked(s, o, tt, vs), {})
  {
    hide Lists, RootsOf, Chained, Live, AllLive, FixedOk, MarkState, RootSwept, Values, WFHeap;
    var b := Shape(tt, Fields(vs));
    var pend := Elems(s.grayagain) + Elems(s.uvhead) + {};
    NotListed(s.heap, s.rootgc, s.strt, s.hash, s.openupval, s.uvhead, o);
    FieldsOk(s.heap, s.marked, s.currentwhite, o, tt, vs);
    match s.gcstate {
      case Propagate => CreatedMarks(s.heap, s.marked, s.currentwhite, s.gray, s.grayagain, pend, pend, o, b);
      case SweepString =>
      case Sweep => LinkPrefix(s.marked, s.currentwhite, s.rootgc, s.openupval, s.sweepgc, o, tt);
      case Pause =>
      case Finalize =>
    }
  }

  // ----- upvalues -----

  ghost function Captured(s: State, th: Obj, slot: nat, k: nat, u: Obj): State
    requires th in s.openupval && k <= |s.openupval[th]|
  {
    s.(heap := s.heap[u := Shape(UPVAL, Slot(th, slot))], marked := s.marked[u := s.currentwhite],
       openupval := s.openupval[th := s.openupval[th][..k] + [u] + s.openupval[th][k..]], uvhead := [u] + s.uvhead)
  }

  /** luaF_findupval found the place k of a slot in the list of a thread. */
  ghost predicate Place(h: Heap, l: seq<Obj>, slot: nat, k: nat) {
    && k <= |l| && (forall i :: 0 <= i < |l| ==> l[i] in h && h[l[i]].body.Slot?)
    && (forall i :: 0 <= i < k ==> h[l[i]].body.index > slot)
    && (k < |l| ==> h[l[k]].body.index < slot)
  }

  lemma InsertDescending(h: Heap, th: Obj, l: seq<Obj>, slot: nat, k: nat, u: Obj)
    requires Descending(h, th, l) && Place(h, l, slot, k) && u !in h
    ensures Descending(h[u := Shape(UPVAL, Slot(th, slot))], th, l[..k] + [u] + l[k..])
  {
    var h', l' := h[u := Shape(UPVAL, Slot(th, slot))], l[..k] + [u] + l[k..];
    assert forall i :: 0 <= i < |l'| ==> l'[i] == if i < k then l[i] else if i == k then u else l[i - 1];
    assert forall i :: k <= i < |l| ==> h[l[i]].body.index < slot;
  }

  lemma CaptureOpen(h: Heap, ou: map<Obj, seq<Obj>>, uv: seq<Obj>, th: Obj, slot: nat, k: nat, u: Obj)
    requires OpenLists(h, ou, uv) && th in ou && u !in h && Place(h, ou[th], slot, k)
    ensures OpenLists(h[u := Shape(UPVAL, Slot(th, slot))], ou[th := ou[th][..k] + [u] + ou[th][k..]], [u] + uv)
  {
    var h', l := h[u := Shape(UPVAL, Slot(th, slot))], ou[th];
    var l' := l[..k] + [u] + l[k..];
    var ou' := ou[th := l'];
    assert Descending(h, th, l);
    InsertDescending(h, th, l, slot, k, u);
    forall t | t in ou' ensures Descending(h', t, ou'[t]) {
      if t != th { assert Descending(h, t, ou[t]); }
    }
    forall v | IsOpen(h', v) ensures h'[v].body.thread in ou' && v in ou'[h'[v].body.thread] {
      if v != u {
        assert IsOpen(h, v);
        if h[v].body.thread == th {
          assert v in l;
          assert l == l[..k] + l[k..];
        }
      }
    }
    assert u !in uv;
    forall i, j | 0 <= i < j < |[u] + uv| ensures ([u] + uv)[i] != ([u] + uv)[j] {
      assert ([u] + uv)[j] == uv[j - 1];
    }
    forall v ensures v in [u] + uv <==> IsOpen(h', v) {
      assert v in uv <==> IsOpen(h, v);
    }
  }

  /** A new open upvalue. */
  lemma CaptureOk(s: State, th: Obj, slot: nat, k: nat, u: Obj)
    requires Good(s, {}) && u !in s.heap && th in s.openupval && Place(s.heap, s.openupval[th], slot, k)
    requires th in s.heap && s.heap[th].body.Fields? && slot < |s.heap[th].body.vals| && s.heap[th].tt == THREAD
    requires th in s.marked && !Dead(s.marked[th], s.currentwhite)
    ensures Good(Captured(s, th, slot, k, u), {})
  {
    hide RootsOf, Chained, AllLive, FixedOk, MarkState, RootSwept, RootList, StringTable, OpenLists, Live;
    var b := Shape(UPVAL, Slot(th, slot));
    var h' := s.heap[u := b];
    CreatedHeap(s.heap, u, b);
    SlotRefs(s.heap, s.marked, s.currentwhite, th, slot);
    CreatedLive(s.heap, s.marked, s.currentwhite, s.fixed, s.mainthread,
        RootsOf(s.mainthread, s.running, s.registry, s.mt), u, b);
    SlotRoot(s.heap, s.rootgc, u, b);
    LinkStrings(s.heap, s.strt, s.hash, u, b);
    CaptureOpen(s.heap, s.openupval, s.uvhead, th, slot, k, u);
    hide LiveState, WFHeap, Values;
    CapturePhase(s, th, slot, k, u);
  }

  lemma SlotRoot(h: Heap, rootgc: seq<Obj>, u: Obj, b: Shape)
    requires RootList(h, rootgc) && u !in h && b.body.Slot?
    ensures RootList(h[u := b], rootgc)
  {
  }

  lemma SlotRefs(h: Heap, m: Marks, cw: Colour, th: Obj, slot: nat)
    requires Live(h, m, cw) && th in m && !Dead(m[th], cw) && th in h && h[th].body.Fields? && slot < |h[th].body.vals|
    ensures forall p :: h[th].body.vals[slot] == Ref(p) ==> p in m && !Dead(m[p], cw)
  {
    forall p | h[th].body.vals[slot] == Ref(p) ensures p in m && !Dead(m[p], cw) {
      assert Edge(h, th, p);
    }
  }

  lemma MoreElems(a: seq<Obj>, b: seq<Obj>, u: Obj)
    ensures Elems(a) + Elems(b) + {} <= Elems(a) + Elems([u] + b) + {}
  {
  }

  lemma NewSlot(h: Heap, m: Marks, cw: Colour, u: Obj, b: Shape)
    requires u !in h && b.body.Slot? && IsWhite(cw)
    ensures OpenNotBlack(h, m) ==> OpenNotBlack(h[u := b], m[u := cw])
    ensures StringsCurrent(h, m, cw) ==> StringsCurrent(h[u := b], m[u := cw], cw)
  {
    if OpenNotBlack(h, m) {
      var h', m' := h[u := b], m[u := cw];
      forall v | IsOpen(h', v) && v in m' ensures !m'[v].Black? {
        if v != u { assert IsOpen(h, v); }
      }
    }
  }

  lemma CapturePhase(s: State, th: Obj, slot: nat, k: nat, u: Obj)
    requires Good(s, {}) && u !in s.heap && th in s.openupval && k <= |s.openupval[th]|
    requires th in s.heap && s.heap[th].body.Fields? && slot < |s.heap[th].body.vals| && s.heap[th].tt == THREAD
    requires th in s.marked && !Dead(s.marked[th], s.currentwhite)
    ensures PhaseOk(Captured(s, th, slot, k, u), {})
  {
    hide Lists, RootsOf, Chained, AllLive, FixedOk, MarkState, RootSwept, Live, WFHeap, Elems, StringsSwept,
        OpenNotBlack, StringsCurrent, RefsOf;
    var b := Shape(UPVAL, Slot(th, slot));
    var pend := Elems(s.grayagain) + Elems(s.uvhead) + {};
    NotListed(s.heap, s.rootgc, s.strt, s.hash, s.openupval, s.uvhead, u);
    SlotRefs(s.heap, s.marked, s.currentwhite, th, slot);
    match s.gcstate {
      case Propagate =>
        var more := Elems(s.grayagain) + Elems([u] + s.uvhead) + {};
        MoreElems(s.grayagain, s.uvhead, u);
        CreatedHeap(s.heap, u, b);
        CreatedMarks(s.heap, s.marked, s.currentwhite, s.gray, s.grayagain, pend, more, u, b);
      case SweepString =>
        StringsStay(s.marked, s.currentwhite, s.strt, s.sweepstrgc, u, s.currentwhite);
        NewSlot(s.heap, s.marked, s.currentwhite, u, b);
      case Sweep =>
        NewSlot(s.heap, s.marked, s.currentwhite, u, b);
        CapturePrefix(s.marked, s.currentwhite, s.rootgc, s.openupval, s.sweepgc, th, k, u);
      case Pause =>
      case Finalize =>
    }
  }

  lemma CapturePrefix(m: Marks, cw: Colour, rootgc: seq<Obj>, ou: map<Obj, seq<Obj>>, n: nat, th: Obj, k: nat, u: Obj)
    requires RootSwept(m, cw, rootgc, ou, n) && th in ou && k <= |ou[th]|
    ensures RootSwept(m[u := cw], cw, rootgc, ou[th := ou[th][..k] + [u] + ou[th][k..]], n)
  {
    var l' := ou[th][..k] + [u] + ou[th][k..];
    assert forall v :: v in l' ==> v == u || v in ou[th];
  }

  /** changewhite on a dead object that turns out to be wanted still. */
  lemma ResurrectOk(s: State, o: Obj)
    requires Good(s, {}) && o in s.marked && o in s.heap && s.marked[o] == OtherWhite(s.currentwhite)
    requires forall p :: Ref(p) in Values(s.heap, o) ==> p in s.marked && !Dead(s.marked[p], s.currentwhite)
    ensures Good(s.(marked := s.marked[o := s.currentwhite]), {})
  {
    hide Lists, RootsOf, Chained, FixedOk, Values, WFHeap, MarkState;
    var m', cw := s.marked[o := s.currentwhite], s.currentwhite;
    forall x, p | x in m' && !Dead(m'[x], cw) && Edge(s.heap, x, p) ensures p in m' && !Dead(m'[p], cw) {
      if x != o { assert Edge(s.heap, x, p); }
    }
    if s.gcstate.Propagate? { NoneDeadNow(s); }
  }

  lemma NoneDeadNow(s: State)
    requires Good(s, {}) && s.gcstate.Propagate?
    ensures forall o :: o in s.marked ==> s.marked[o] != OtherWhite(s.currentwhite)
  {
  }

  // ----- closing upvalues -----

  /** luaC_linkupval: a closed upvalue needs barriers while marking, and counts as swept later. */
  function LinkedColour(ph: Phase, cw: Colour, c: Colour): Colour {
    if !c.Gray? then c else if ph.Propagate? then Black else cw
  }

  ghost function ClosedState(s: State, th: Obj): State
    requires th in s.openupval && s.openupval[th] != [] && s.openupval[th][0] in s.heap
        && s.openupval[th][0] in s.marked
  {
    var u := s.openupval[th][0];
    s.(heap := s.heap[u := Closed(s.heap, u)], marked :=
        s.marked[u := LinkedColour(s.gcstate, s.currentwhite, s.marked[u])],
       rootgc := [u] + s.rootgc, sweepgc := if s.sweepgc > 0 then s.sweepgc + 1 else 0,
       openupval := s.openupval[th := s.openupval[th][1..]], uvhead := Without(s.uvhead, u))
  }

  lemma FirstListed(h: Heap, rootgc: seq<Obj>, strt: seq<seq<Obj>>, hash: Text -> nat, ou: map<Obj, seq<Obj>>,
      uv: seq<Obj>, th: Obj)
    requires Lists(h, rootgc, strt, hash, ou, uv) && WFHeap(h) && th in ou && ou[th] != []
    ensures var u := ou[th][0];
            && IsOpen(h, u) && h[u].body.thread == th && h[u].tt == UPVAL && Descending(h, th, ou[th])
            && NoDup(uv) && u in uv && u !in rootgc && u !in ou && forall b :: 0 <= b < |strt| ==> u !in strt[b]
  {
    var u := ou[th][0];
    assert Descending(h, th, ou[th]);
    assert IsOpen(h, u);
    assert WFObject(h, u);
    assert forall b, o :: 0 <= b < |strt| && o in strt[b] ==> h[o].body.Bytes?;
  }

  /** The lua_assert of luaF_close. */
  lemma OpenNever(s: State, late: set<Obj>)
    requires PhaseOk(s, late) && IsWhite(s.currentwhite)
    ensures OpenNotBlack(s.heap, s.marked)
  {
    hide EdgesOk, ListsOk, WFHeap, StringsSwept, RootSwept;
  }

  lemma FirstOpen(s: State, th: Obj)
    requires Good(s, {}) && th in s.openupval && s.openupval[th] != []
    ensures var u := s.openupval[th][0];
            && u in s.heap && u in s.marked && IsOpen(s.heap, u) && s.heap[u].body.thread == th && s.heap[u].tt == UPVAL
                && !s.marked[u].Black?
            && Descending(s.heap, th, s.openupval[th]) && WFHeap(s.heap) && NoDup(s.uvhead) && u in s.uvhead
                && u !in s.rootgc && u !in s.openupval
            && forall b :: 0 <= b < |s.strt| ==> u !in s.strt[b]
  {
    hide Lists, WFHeap, Live, AllLive, RootsOf, FixedOk, PhaseOk, Chained;
    FirstListed(s.heap, s.rootgc, s.strt, s.hash, s.openupval, s.uvhead, th);
    OpenNever(s, {});
  }

  /** luaF_close on an upvalue that is not dead; the copy may need a barrier now. */
  lemma CloseLiveOk(s: State, th: Obj)
    requires Good(s, {}) && th in s.openupval && s.openupval[th] != []
    requires s.openupval[th][0] in s.marked && !Dead(s.marked[s.openupval[th][0]], s.currentwhite)
    ensures s.openupval[th][0] in s.heap && Good(ClosedState(s, th), {s.openupval[th][0]})
    ensures s.marked[s.openupval[th][0]].Gray? ==> !s.gcstate.Pause? && !s.gcstate.Finalize?
  {
    hide RootsOf, Chained, Live, AllLive, FixedOk, MarkState, RootSwept, RootList, StringTable, OpenLists, WFHeap,
        Closed, Without, StringsSwept;
    var u := s.openupval[th][0];
    var roots := RootsOf(s.mainthread, s.running, s.registry, s.mt);
    FirstOpen(s, th);
    CloseOk(s.heap, s.marked, s.currentwhite, s.fixed, s.mainthread, roots, s.rootgc, s.strt, s.hash, s.openupval,
        s.uvhead, th);
    GrayLive(s.heap[u := Closed(s.heap, u)], s.marked, s.currentwhite, s.fixed, s.mainthread, roots, u,
        LinkedColour(s.gcstate, s.currentwhite, s.marked[u]));
    hide LiveState, Lists;
    ClosePhase(s, th);
  }

  lemma ClosePhase(s: State, th: Obj)
    requires Good(s, {}) && th in s.openupval && s.openupval[th] != []
    requires s.openupval[th][0] in s.heap && s.openupval[th][0] in s.marked
        && !Dead(s.marked[s.openupval[th][0]], s.currentwhite)
    ensures PhaseOk(ClosedState(s, th), {s.openupval[th][0]})
    ensures s.marked[s.openupval[th][0]].Gray? ==> !s.gcstate.Pause? && !s.gcstate.Finalize?
  {
    hide Lists, RootsOf, Chained, Live, AllLive, FixedOk, MarkState, RootSwept, WFHeap, Closed, Without, StringsSwept;
    var u, cw := s.openupval[th][0], s.currentwhite;
    var m' := s.marked[u := LinkedColour(s.gcstate, cw, s.marked[u])];
    FirstOpen(s, th);
    ClosedBody(s.heap, u);
    match s.gcstate {
      case Propagate =>
        CloseMarks(s.heap, s.marked, cw, s.gray, s.grayagain, s.uvhead, u);
      case SweepString =>
        StringsStay(s.marked, cw, s.strt, s.sweepstrgc, u, m'[u]);
      case Sweep =>
        PrefixStays(s.marked, cw, s.rootgc, s.openupval, s.sweepgc, u);
        LinkedPrefix(m', cw, s.rootgc, s.openupval, s.sweepgc, th, u);
      case Pause =>
      case Finalize =>
    }
  }

  lemma StringsStay(m: Marks, cw: Colour, strt: seq<seq<Obj>>, k: nat, u: Obj, c: Colour)
    requires StringsSwept(m, cw, strt, k) && forall b :: 0 <= b < |strt| ==> u !in strt[b]
    ensures StringsSwept(m[u := c], cw, strt, k) && StringsSwept(m - {u}, cw, strt, k)
  {
  }

  lemma PrefixStays(m: Marks, cw: Colour, rootgc: seq<Obj>, ou: map<Obj, seq<Obj>>, n: nat, u: Obj)
    requires RootSwept(m, cw, rootgc, ou, n)
    ensures RootSwept(m[u := cw], cw, rootgc, ou, n)
  {
  }

  lemma ClosedBody(h: Heap, u: Obj)
    requires IsOpen(h, u)
    ensures forall v :: IsOpen(h[u := Closed(h, u)], v) <==> IsOpen(h, v) && v != u
    ensures forall m, cw :: StringsCurrent(h, m, cw) ==> StringsCurrent(h[u := Closed(h, u)], m, cw)
  {
  }

  lemma CloseMarks(h: Heap, m: Marks, cw: Colour, gray: seq<Obj>, grayagain: seq<Obj>, uv: seq<Obj>, u: Obj)
    requires MarkState(h, m, cw, gray, grayagain, Elems(grayagain) + Elems(uv) + {}, {})
    requires IsOpen(h, u) && NoDup(uv) && u in m && h[u].tt == UPVAL && !m[u].Black?
    ensures var m' := m[u := LinkedColour(Propagate, cw, m[u])];
            MarkState(h[u := Closed(h, u)], m', cw, gray, grayagain, Elems(grayagain) + Elems(Without(uv, u)) + {u}, {})
  {
    hide EdgesOk, ListsOk, WFHeap, NoDangling, Values, Closed, Without, Edge, KindsOk;
    var h', m' := h[u := Closed(h, u)], m[u := LinkedColour(Propagate, cw, m[u])];
    CloseHeap(h, u);
    CloseKinds(h, m, cw, u);
    WithoutIs(uv, u);
    var pend, pend' := Elems(grayagain) + Elems(uv) + {}, Elems(grayagain) + Elems(Without(uv, u)) + {u};
    assert pend <= pend';
    SameEdges(h, m, h', m', pend + Elems(gray), pend' + Elems(gray));
    SameLists(h, m, h', m', gray + grayagain);
  }

  lemma CloseKinds(h: Heap, m: Marks, cw: Colour, u: Obj)
    requires KindsOk(h, m, {}) && IsOpen(h, u) && h[u].tt == UPVAL && u in m && !m[u].Black?
    ensures KindsOk(h[u := Closed(h, u)], m[u := LinkedColour(Propagate, cw, m[u])], {})
    ensures Closed(h, u).tt == UPVAL
  {
  }

  lemma SameEdges(h: Heap, m: Marks, h': Heap, m': Marks, pend: set<Obj>, pend': set<Obj>)
    requires EdgesOk(h, m, pend) && NoDangling(h) && h'.Keys == h.Keys && m'.Keys == m.Keys && pend <= pend'
    requires (forall x, p :: Edge(h', x, p) <==> Edge(h, x, p)) && forall x :: x in m ==>
        IsWhite(m'[x]) == IsWhite(m[x])
    ensures EdgesOk(h', m', pend') && NoDangling(h')
  {
    hide Edge;
    forall x, p | Edge(h', x, p) ensures p in h' { assert Edge(h, x, p); }
    forall x, p | x in m' && !IsWhite(m'[x]) && Edge(h', x, p) && p in m' && IsWhite(m'[p]) ensures x in pend' {
      assert Edge(h, x, p);
    }
  }

  lemma SameLists(h: Heap, m: Marks, h': Heap, m': Marks, l: seq<Obj>)
    requires ListsOk(h, m, l) && h'.Keys == h.Keys && m'.Keys == m.Keys && m.Keys == h.Keys
    requires forall x :: x in h ==> h'[x].tt == h[x].tt && (m'[x] == m[x] || !Traversable(h[x].tt))
    ensures ListsOk(h', m', l)
  {
  }

  ghost function FreedUpval(s: State, th: Obj): State
    requires th in s.openupval && s.openupval[th] != []
  {
    var u := s.openupval[th][0];
    s.(heap := s.heap - {u}, marked := s.marked - {u}, openupval := s.openupval[th := s.openupval[th][1..]], uvhead :=
        Without(s.uvhead, u))
  }

  /** luaF_close on a dead upvalue. */
  lemma FreeUpvalGood(s: State, th: Obj)
    requires Good(s, {}) && th in s.openupval && s.openupval[th] != []
    requires s.openupval[th][0] in s.marked && s.marked[s.openupval[th][0]] == OtherWhite(s.currentwhite)
    ensures Good(FreedUpval(s, th), {})
    ensures s.openupval[th][0] in s.heap && forall x :: x in s.heap && x != s.openupval[th][0] ==>
        Values(FreedUpval(s, th).heap, x) == Values(s.heap, x)
  {
    hide RootsOf, Chained, Live, AllLive, FixedOk, MarkState, RootSwept, RootList, StringTable, OpenLists, WFHeap,
        Without, StringsSwept, Values;
    var u, cw := s.openupval[th][0], s.currentwhite;
    var l := s.openupval[th];
    assert RemoveAt(l, 0) == l[1..];
    FirstOpen(s, th);
    FreeUpvalOk(s.heap, s.marked, cw, s.fixed, s.mainthread, RootsOf(s.mainthread, s.running, s.registry, s.mt),
        s.rootgc, s.strt, s.hash, s.openupval, s.uvhead, th, 0);
    hide LiveState, Lists;
    match s.gcstate {
      case Propagate => NoneDeadNow(s);
      case SweepString => StringsStay(s.marked, cw, s.strt, s.sweepstrgc, u, cw);
      case Sweep => FreedUpvalPrefix(s.marked, cw, s.rootgc, s.openupval, s.sweepgc, th);
      case Pause => 
      case Finalize =>
    }
  }

  lemma FreedUpvalPrefix(m: Marks, cw: Colour, rootgc: seq<Obj>, ou: map<Obj, seq<Obj>>, n: nat, th: Obj)
    requires RootSwept(m, cw, rootgc, ou, n) && th in ou && ou[th] != [] && ou[th][0] in m
        && m[ou[th][0]] == OtherWhite(cw) && IsWhite(cw)
    ensures RootSwept(m - {ou[th][0]}, cw, rootgc, ou[th := ou[th][1..]], n)
  {
    var u, ou' := ou[th][0], ou[th := ou[th][1..]];
    forall i | 0 <= i < n
      ensures rootgc[i] in m - {u} && m[rootgc[i]] == cw
      ensures rootgc[i] in ou' ==> forall v :: v in ou'[rootgc[i]] ==> v in m - {u} && m[v] == cw
    {
      if rootgc[i] in ou' {
        forall v | v in ou'[rootgc[i]] ensures v in m - {u} && m[v] == cw { assert v in ou[rootgc[i]]; }
      }
    }
  }

  // ----- strings -----

  ghost function NewStringState(s: State, o: Obj, str: Text): State
    requires |s.strt| > 0
  {
    var b := Bucket(s.hash, |s.strt|, str);
    s.(heap := s.heap[o := Shape(STRING, Bytes(str))], marked := s.marked[o := s.currentwhite], strt :=
        s.strt[b := [o] + s.strt[b]], nuse := s.nuse + 1)
  }

  lemma StringRoot(h: Heap, rootgc: seq<Obj>, o: Obj, str: Text)
    requires RootList(h, rootgc) && o !in h
    ensures RootList(h[o := Shape(STRING, Bytes(str))], rootgc)
  {
  }

  lemma StringOpen(h: Heap, ou: map<Obj, seq<Obj>>, uv: seq<Obj>, o: Obj, str: Text)
    requires OpenLists(h, ou, uv) && o !in h
    ensures OpenLists(h[o := Shape(STRING, Bytes(str))], ou, uv)
  {
    var h' := h[o := Shape(STRING, Bytes(str))];
    assert forall u :: IsOpen(h', u) <==> IsOpen(h, u);
    forall th | th in ou ensures Descending(h', th, ou[th]) { assert Descending(h, th, ou[th]); }
  }

  /** newlstr, before the table may have to grow. */
  lemma NewStringOk(s: State, o: Obj, str: Text)
    requires Good(s, {}) && o !in s.heap && |s.strt| > 0 && forall p :: p in s.heap ==> s.heap[p].body != Bytes(str)
    ensures Good(NewStringState(s, o, str), {})
  {
    hide RootsOf, Chained, Live, AllLive, FixedOk, MarkState, RootSwept, RootList, StringTable, OpenLists, WFHeap;
    var b := Shape(STRING, Bytes(str));
    ChainNew(s.heap, s.strt, s.hash, str, o);
    StringRoot(s.heap, s.rootgc, o, str);
    StringOpen(s.heap, s.openupval, s.uvhead, o, str);
    CreatedLive(s.heap, s.marked, s.currentwhite, s.fixed, s.mainthread,
        RootsOf(s.mainthread, s.running, s.registry, s.mt), o, b);
    NotListed(s.heap, s.rootgc, s.strt, s.hash, s.openupval, s.uvhead, o);
    var pend := Elems(s.grayagain) + Elems(s.uvhead) + {};
    hide LiveState, Lists;
    match s.gcstate {
      case Propagate => CreatedMarks(s.heap, s.marked, s.currentwhite, s.gray, s.grayagain, pend, pend, o, b);
      case SweepString =>
      case Sweep => PrefixStays(s.marked, s.currentwhite, s.rootgc, s.openupval, s.sweepgc, o);
      case Pause =>
      case Finalize =>
    }
  }
}
