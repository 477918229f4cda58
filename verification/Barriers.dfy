/** What the running program does to the collector's state: new objects, writes with their
    barriers, upvalues and strings (lgc.c, lgc.h, lfunc.c, lstring.c). */
module Barriers {
  import opened Common
  import opened GcHeap
  import opened GcLists
  import opened StringTables
  import opened Collector
  import opened Mutator


  ghost function Now(g: GlobalState): State
    reads g
  {
    State(g.hash, g.heap, g.marked, g.fixed, g.currentwhite, g.gcstate, g.gray, g.grayagain, g.rootgc, g.sweepgc,
        g.strt, g.nuse, g.sweepstrgc,
          g.openupval, g.uvhead, g.mainthread, g.registry, g.mt, g.running)
  }

  lemma SameState(s: State, s': State)
    requires s.hash == s'.hash && s.heap == s'.heap && s.marked == s'.marked && s.fixed == s'.fixed
    requires s.currentwhite == s'.currentwhite && s.gcstate == s'.gcstate && s.gray == s'.gray
        && s.grayagain == s'.grayagain
    requires s.rootgc == s'.rootgc && s.sweepgc == s'.sweepgc && s.strt == s'.strt && s.nuse == s'.nuse
    requires s.sweepstrgc == s'.sweepstrgc && s.openupval == s'.openupval && s.uvhead == s'.uvhead
        && s.mainthread == s'.mainthread
    requires s.registry == s'.registry && s.mt == s'.mt && s.running == s'.running
    ensures s == s'
  {
  }

  lemma ValidGood(g: GlobalState)
    ensures g.Valid() <==> Good(Now(g), {})
  {
    hide Lists, LiveState, MarkState, StringsSwept, RootSwept, OpenNotBlack, StringsCurrent, AllCurrent, AllMarked,
        RootsOf, Chained;
    assert g.Unfinished() + {} == g.Unfinished();
  }

  /** The thread that runs has a stack, and can be reached. */
  ghost predicate Ready(g: GlobalState)
    reads g
  {
    g.Valid() && g.running in g.heap && g.heap[g.running].tt == THREAD
  }

  /** A value the program may hold: it is no dead object. */
  ghost predicate Usable(g: GlobalState, v: Value)
    reads g
  {
    Live1(g.marked, g.currentwhite, v)
  }

  lemma Basics(s: State, late: set<Obj>)
    requires Good(s, late)
    ensures s.marked.Keys == s.heap.Keys && IsWhite(s.currentwhite) && |s.strt| > 0 && WFHeap(s.heap)
    ensures s.running in s.heap && s.mainthread in s.heap && !Dead(s.marked[s.running], s.currentwhite)
    ensures forall th :: th in s.openupval <==> th in s.heap && s.heap[th].tt == THREAD
    ensures forall th :: th in s.openupval ==> Descending(s.heap, th, s.openupval[th])
  {
    hide WFHeap, Live, PhaseOk, Chained;
    MainIsRoot(s.mainthread, s.running, s.registry, s.mt);
  }

  /** Whatever the program can reach is there, and is no dead object. */
  lemma Safety(g: GlobalState, o: Obj)
    requires g.Valid() && Reach(g.heap, g.Roots(), o)
    ensures o in g.heap && o in g.marked && !Dead(g.marked[o], g.currentwhite) && Usable(g, Ref(o))
  {
    hide g.Listed, g.InPhase, Live, AllLive, Reach;
    ReachLive(g.heap, g.marked, g.currentwhite, g.Roots(), o);
  }

  // ----- barriers -----

  /** The collector is neither in the pause nor finalizing: what luaC_barrierf and
      luaC_barrierback assert. */
  ghost predicate Working(g: GlobalState)
    reads g
  {
    !g.gcstate.Pause? && !g.gcstate.Finalize?
  }

  /** luaC_barrierf: o, which is black, was made to refer to v, which is white. */
  method BarrierF(g: GlobalState, o: Obj, v: Obj)
    requires Good(Now(g), {o}) && o in g.marked && g.marked[o].Black? && !Dead(g.marked[o], g.currentwhite)
    requires v in g.marked && IsWhite(g.marked[v]) && !Dead(g.marked[v], g.currentwhite)
    requires g.gcstate.Propagate? ==> forall p :: o in g.heap && Ref(p) in Values(g.heap, o) && p != v ==>
        p in g.marked && !IsWhite(g.marked[p])
    modifies g`marked, g`gray
    ensures g.Valid() && Working(g)
    ensures g.gcstate.Propagate? ==> v in g.marked && !IsWhite(g.marked[v]) && Grows(old(g.marked), g.marked)
    ensures !g.gcstate.Propagate? ==> g.marked == old(g.marked)[o := g.currentwhite]
    ensures forall p :: p in old(g.marked) && !Dead(old(g.marked)[p], g.currentwhite) ==>
        p in g.marked && !Dead(g.marked[p], g.currentwhite)
  {
    hide Good, Grows, MarkState, Values, Whites, GlobalState.Valid, Within;
    ghost var s := Now(g);
    Basics(s, {o});
    BlackPhase(s, {o}, o);
    if g.gcstate == Propagate {
      ghost var pend := Elems(g.grayagain) + Elems(g.uvhead) + {o};
      MarkingNow(g, {o});
      EverythingClosed(g.heap, g.marked);
      g.ReallyMark(v, pend, {}, Everything());
      StillMarked(s.marked, g.marked, s.currentwhite);
      AfterBarrier(s, o, g.marked, g.gray);
      SameState(Now(g), s.(marked := g.marked, gray := g.gray));
      NoBarrier(Now(g), o);
    } else {
      g.marked := g.marked[o := g.currentwhite];
      Recolour(s, o, g.currentwhite);
      SameState(Now(g), s.(marked := g.marked));
    }
    ValidGood(g);
  }

  lemma MarkingNow(g: GlobalState, late: set<Obj>)
    requires Good(Now(g), late) && g.gcstate.Propagate?
    ensures g.Marking(Elems(g.grayagain) + Elems(g.uvhead) + late, {})
  {
    hide MarkState;
  }

  lemma StillMarked(m: Marks, m': Marks, cw: Colour)
    requires Grows(m, m') && IsWhite(cw)
    ensures forall p :: p in m && !IsWhite(m[p]) ==> p in m' && !IsWhite(m'[p])
    ensures forall p :: p in m && !Dead(m[p], cw) ==> p in m' && !Dead(m'[p], cw)
  {
  }

  /** A black object refers to a white one. */
  predicate NeedsBarrier(m: Marks, o: Obj, val: Value) {
    val.Ref? && o in m && m[o].Black? && val.o in m && IsWhite(m[val.o])
  }

  /** luaC_barrier, after val was stored in o. */
  method Barrier(g: GlobalState, o: Obj, val: Value)
    requires Good(Now(g), {o}) && o in g.marked && Usable(g, val)
    requires
      && g.gcstate.Propagate? && !IsWhite(g.marked[o])
      && !(g.marked[o].Gray? && o in g.heap && Traversable(g.heap[o].tt)) ==>
      g.marked[o].Black? && forall p :: o in g.heap && Ref(p) in Values(g.heap, o) && val != Ref(p) ==>
          p in g.marked && !IsWhite(g.marked[p])
    modifies g`marked, g`gray
    ensures g.Valid()
    ensures if NeedsBarrier(old(g.marked), o, val)
            then if g.gcstate.Propagate?
                 then val.o in g.marked && !IsWhite(g.marked[val.o]) && Grows(old(g.marked), g.marked)
                 else g.marked == old(g.marked)[o := g.currentwhite]
            else g.marked == old(g.marked) && g.gray == old(g.gray)
    ensures forall p :: p in old(g.marked) && !Dead(old(g.marked)[p], g.currentwhite) ==>
        p in g.marked && !Dead(g.marked[p], g.currentwhite)
  {
    hide Good, Values, GlobalState.Valid, Grows;
    Basics(Now(g), {o});
    if val.Ref? && IsWhite(g.marked[val.o]) && g.marked[o] == Black {
      BarrierF(g, o, val.o);
    } else {
      NoBarrier(Now(g), o);
      ValidGood(g);
    }
  }

  /** luaC_barrierback: a black table is traversed once more before the end of the mark phase. */
  method BarrierBack(g: GlobalState, t: Obj)
    requires Good(Now(g), {t}) && t in g.marked && t in g.heap && g.marked[t].Black? && Traversable(g.heap[t].tt)
    modifies g`marked, g`grayagain
    ensures g.Valid() && Working(g)
    ensures g.marked == old(g.marked)[t := Gray] && g.grayagain == [t] + old(g.grayagain)
  {
    hide Good, GlobalState.Valid;
    ghost var s := Now(g);
    BlackPhase(s, {t}, t);
    g.marked := g.marked[t := Gray];
    g.grayagain := [t] + g.grayagain;
    if g.gcstate == Propagate { BackMarking(s, t); } else { BackSweeping(s, t); }
    SameState(Now(g), s.(marked := g.marked, grayagain := g.grayagain));
    ValidGood(g);
  }

  // ----- writes -----

  /** A value is stored in a table, and luaC_barriert follows. */
  method SetTable(g: GlobalState, t: Obj, i: nat, v: Value)
    requires g.Valid() && t in g.heap && g.heap[t].tt == TABLE && g.heap[t].body.Fields? && i <= |g.heap[t].body.vals|
        && Usable(g, v)
    modifies g`heap, g`marked, g`grayagain
    ensures g.Valid() && g.heap == Written(old(g.heap), t, Stored(old(g.heap)[t].body.vals, i, v))
    ensures forall p :: p in old(g.marked) && !Dead(old(g.marked)[p], g.currentwhite) ==>
        p in g.marked && !Dead(g.marked[p], g.currentwhite)
  {
    hide Good, GlobalState.Valid, Written, Values;
    ghost var s := Now(g);
    ValidGood(g);
    Basics(s, {});
    StoredOk(s.heap, s.marked, s.currentwhite, t, i, v);
    WriteOk(s, t, Stored(g.heap[t].body.vals, i, v));
    TagKept(g.heap, t, Stored(g.heap[t].body.vals, i, v));
    g.heap := Written(g.heap, t, Stored(g.heap[t].body.vals, i, v));
    SameState(Now(g), s.(heap := g.heap));
    if v.Ref? && IsWhite(g.marked[v.o]) && g.marked[t] == Black {
      BarrierBack(g, t);
    } else {
      if g.gcstate.Propagate? && g.marked[t].Black? {
        BlackRefs(s, t);
        StoredRefs(s.heap, g.heap, s.marked, t, i, v);
      }
      NoBarrier(Now(g), t);
      ValidGood(g);
    }
  }

  function Stored(vs: seq<Value>, i: nat, v: Value): (r: seq<Value>)
    requires i <= |vs|
    ensures |r| == (if i < |vs| then |vs| else |vs| + 1) && r[i] == v
    ensures forall j :: 0 <= j < |vs| && j != i ==> r[j] == vs[j]
  {
    if i < |vs| then vs[i := v] else vs + [v]
  }

  lemma StoredOk(h: Heap, m: Marks, cw: Colour, o: Obj, i: nat, v: Value)
    requires o in h && h[o].body.Fields? && h[o].tt != THREAD && i <= |h[o].body.vals| && Live1(m, cw, v)
        && (h[o].tt == UPVAL ==> i < |h[o].body.vals| == 1)
    ensures CanHold(h, o, Stored(h[o].body.vals, i, v)) && ChangesLive(h, m, cw, o, Stored(h[o].body.vals, i, v))
  {
  }

  lemma TagKept(h: Heap, o: Obj, vs: seq<Value>)
    requires o in h
    ensures o in Written(h, o, vs) && Written(h, o, vs)[o].tt == h[o].tt && Values(Written(h, o, vs), o) == vs
        && Written(h, o, vs).Keys == h.Keys
  {
  }

  lemma StoredRefs(h: Heap, h': Heap, m: Marks, o: Obj, i: nat, v: Value)
    requires o in h && h[o].body.Fields? && i <= |h[o].body.vals| && h' == Written(h, o, Stored(h[o].body.vals, i, v))
    requires forall p :: o in h && Ref(p) in Values(h, o) ==> p in m && !IsWhite(m[p])
    ensures forall p :: o in h' && Ref(p) in Values(h', o) && v != Ref(p) ==> p in m && !IsWhite(m[p])
  {
    forall p | Ref(p) in Values(h', o) && v != Ref(p) ensures Ref(p) in Values(h, o) {}
  }

  /** A value is stored in an object that is neither a table nor a thread, and luaC_barrier follows. */
  method SetField(g: GlobalState, o: Obj, i: nat, v: Value)
    requires g.Valid() && o in g.heap && g.heap[o].tt != TABLE && g.heap[o].tt != THREAD && g.heap[o].body.Fields?
    requires i < |g.heap[o].body.vals| && Usable(g, v)
    modifies g`heap, g`marked, g`gray
    ensures g.Valid() && g.heap == Written(old(g.heap), o, old(g.heap)[o].body.vals[i := v])
    ensures forall p :: p in old(g.marked) && !Dead(old(g.marked)[p], g.currentwhite) ==>
        p in g.marked && !Dead(g.marked[p], g.currentwhite)
  {
    hide Good, GlobalState.Valid, Written, Values, WFHeap;
    ghost var s := Now(g);
    ValidGood(g);
    Basics(s, {});
    ClosedOne(s.heap, o);
    StoredOk(s.heap, s.marked, s.currentwhite, o, i, v);
    assert Stored(g.heap[o].body.vals, i, v) == g.heap[o].body.vals[i := v];
    WriteOk(s, o, Stored(g.heap[o].body.vals, i, v));
    TagKept(g.heap, o, g.heap[o].body.vals[i := v]);
    if g.gcstate.Propagate? {
      FieldColours(s, o);
      if s.marked[o].Black? { BlackRefs(s, o); }
    }
    g.heap := Written(g.heap, o, g.heap[o].body.vals[i := v]);
    if g.gcstate.Propagate? && s.marked[o].Black? { StoredRefs(s.heap, g.heap, s.marked, o, i, v); }
    SameState(Now(g), s.(heap := g.heap));
    Barrier(g, o, v);
  }

  lemma ClosedOne(h: Heap, o: Obj)
    requires WFHeap(h) && o in h && h[o].body.Fields?
    ensures (h[o].tt == UPVAL ==> |h[o].body.vals| == 1) && h[o].tt != STRING
  {
    assert WFObject(h, o);
  }

  /** While marking, an object with fields is gray only if it waits to be traversed. */
  lemma FieldColours(s: State, o: Obj)
    requires Good(s, {}) && s.gcstate.Propagate? && o in s.heap && o in s.marked && s.heap[o].body.Fields?
    ensures s.marked[o].Gray? ==> Traversable(s.heap[o].tt)
  {
    hide EdgesOk, ListsOk, Lists, Live, AllLive, NoDangling, Chained, AllMarked;
    assert WFObject(s.heap, o);
  }

  /** A value is stored on a stack: threads need no barrier, they are traversed again by atomic. */
  method SetStack(g: GlobalState, th: Obj, i: nat, v: Value)
    requires g.Valid() && th in g.heap && g.heap[th].tt == THREAD && g.heap[th].body.Fields?
        && i < |g.heap[th].body.vals| && Usable(g, v)
    modifies g`heap
    ensures g.Valid() && g.heap == Written(old(g.heap), th, old(g.heap)[th].body.vals[i := v])
  {
    hide Good, GlobalState.Valid, Written, Values, WFHeap, CanHold, ChangesLive;
    ghost var s := Now(g);
    ValidGood(g);
    Basics(s, {});
    StackOk(s.heap, s.marked, s.currentwhite, th, i, v);
    WriteOk(s, th, g.heap[th].body.vals[i := v]);
    StackColours(s, th);
    TagKept(g.heap, th, g.heap[th].body.vals[i := v]);
    g.heap := Written(g.heap, th, g.heap[th].body.vals[i := v]);
    SameState(Now(g), s.(heap := g.heap));
    NoBarrier(Now(g), th);
    ValidGood(g);
  }

  lemma StackOk(h: Heap, m: Marks, cw: Colour, th: Obj, i: nat, v: Value)
    requires WFHeap(h) && th in h && h[th].tt == THREAD && h[th].body.Fields? && i < |h[th].body.vals|
        && Live1(m, cw, v)
    ensures CanHold(h, th, h[th].body.vals[i := v]) && ChangesLive(h, m, cw, th, h[th].body.vals[i := v])
  {
    forall u | IsOpen(h, u) && h[u].body.thread == th
        ensures h[u].body.index < |h[th].body.vals| { assert WFObject(h, u); }
  }

  lemma StackColours(s: State, th: Obj)
    requires Good(s, {}) && th in s.heap && th in s.marked && s.heap[th].tt == THREAD
    ensures s.gcstate.Propagate? ==> !s.marked[th].Black?
  {
    hide EdgesOk, ListsOk, Lists, Live, AllLive, NoDangling, Chained, AllMarked, WFHeap, StringsSwept, RootSwept;
  }

  /** v was written through the upvalue u, and nothing else changed. */
  ghost predicate CellWritten(h: Heap, h': Heap, u: Obj, v: Value)
    requires u in h
  {
    match h[u].body
    case Slot(th, i) => th in h && h[th].body.Fields? && i < |h[th].body.vals|
        && h' == Written(h, th, h[th].body.vals[i := v])
    case _ => h' == Written(h, u, [v])
  }

  /** What a write to a stack slot means for an upvalue: an open one of that slot reads the new
      value, every other one reads what it read before. */
  lemma CellReads(h: Heap, th: Obj, i: nat, v: Value, u: Obj)
    requires WFHeap(h) && th in h && h[th].tt == THREAD && h[th].body.Fields? && i < |h[th].body.vals| && u in h
        && h[u].tt == UPVAL
    ensures u in Written(h, th, h[th].body.vals[i := v])
    ensures Values(Written(h, th, h[th].body.vals[i := v]), u) == if h[u].body == Slot(th, i) then [v] else Values(h, u)
  {
    assert WFObject(h, u);
  }

  /** Once it is closed, an upvalue and its old slot are two cells. */
  lemma CellsApart(h: Heap, u: Obj, th: Obj, i: nat, v: Value)
    requires WFHeap(h) && IsOpen(h, u) && h[u].body == Slot(th, i)
    ensures var h' := Closed(h, u);
            && Values(h[u := h'], u) == Values(h, u) == [h[th].body.vals[i]]
            && Values(Written(h[u := h'], th, h[th].body.vals[i := v]), u) == Values(h, u)
            && Values(Written(h[u := h'], u, [v]), th) == Values(h, th)
  {
    CloseHeap(h, u);
    assert WFObject(h, u);
  }

  /** OP_SETUPVAL: while the upvalue is open the value goes to the stack slot. */
  method SetUpval(g: GlobalState, u: Obj, v: Value)
    requires g.Valid() && u in g.heap && g.heap[u].tt == UPVAL && Usable(g, v)
    modifies g`heap, g`marked, g`gray
    ensures g.Valid() && u in g.heap && Values(g.heap, u) == [v] && CellWritten(old(g.heap), g.heap, u, v)
    ensures g.heap.Keys == old(g.heap).Keys && forall x :: x in g.heap ==> g.heap[x].tt == old(g.heap)[x].tt
    ensures forall p :: p in old(g.marked) && !Dead(old(g.marked)[p], g.currentwhite) ==>
        p in g.marked && !Dead(g.marked[p], g.currentwhite)
  {
    hide Good, GlobalState.Valid, WFHeap;
    ghost var s := Now(g);
    ValidGood(g);
    Basics(s, {});
    UpvalShape(g.heap, u);
    if g.heap[u].body.Slot? {
      SetStack(g, g.heap[u].body.thread, g.heap[u].body.index, v);
    } else {
      SetField(g, u, 0, v);
    }
  }

  lemma UpvalShape(h: Heap, u: Obj)
    requires WFHeap(h) && u in h && h[u].tt == UPVAL
    ensures (h[u].body.Fields? && |h[u].body.vals| == 1) || h[u].body.Slot?
    ensures h[u].body.Slot? ==>
        h[u].body.thread in h && h[h[u].body.thread].tt == THREAD && h[h[u].body.thread].body.Fields?
                                && h[u].body.index < |h[h[u].body.thread].body.vals|
  {
    assert WFObject(h, u);
  }

  // ----- new objects -----

  /** A new head of the root list: what has been swept is still behind the sweep position. */
  method PutFirst(g: GlobalState, o: Obj)
    modifies g`rootgc, g`sweepgc
    ensures g.rootgc == [o] + old(g.rootgc) && g.sweepgc == if old(g.sweepgc) > 0 then old(g.sweepgc) + 1 else 0
  {
    g.rootgc := [o] + g.rootgc;
    if g.sweepgc > 0 { g.sweepgc := g.sweepgc + 1; }
  }

  /** luaC_link. */
  method Link(g: GlobalState, o: Obj, tt: Tag, vs: seq<Value>)
    requires g.Valid() && o !in g.heap && CanCreate(tt, vs) && AllLiveValues(g.marked, g.currentwhite, vs)
    modifies g`heap, g`marked, g`rootgc, g`sweepgc, g`openupval
    ensures g.Valid() && g.heap == old(g.heap)[o := Shape(tt, Fields(vs))]
        && g.marked == old(g.marked)[o := g.currentwhite]
    ensures g.rootgc == [o] + old(g.rootgc)
  {
    hide Good, GlobalState.Valid, AllLiveValues, NewOpen, CanCreate;
    ghost var s := Now(g);
    ValidGood(g);
    LinkOk(s, o, tt, vs);
    PutFirst(g, o);
    g.heap := g.heap[o := Shape(tt, Fields(vs))];
    g.marked := g.marked[o := g.currentwhite];
    g.openupval := NewOpen(g.openupval, o, tt);
    SameState(Now(g), Linked(s, o, tt, vs));
    ValidGood(g);
  }

  // ----- upvalues -----

  /** The upvalue of a slot that is still on the stack. */
  ghost predicate OpenAt(h: Heap, u: Obj, th: Obj, slot: nat) {
    IsOpen(h, u) && h[u].body == Slot(th, slot)
  }

  /** luaF_findupval walks down the list of the thread. */
  method FindPlace(g: GlobalState, slot: nat) returns (k: nat, found: bool)
    requires g.running in g.openupval && Descending(g.heap, g.running, g.openupval[g.running])
    ensures k <= |g.openupval[g.running]|
    ensures found ==> k < |g.openupval[g.running]| && OpenAt(g.heap, g.openupval[g.running][k], g.running, slot)
    ensures !found ==> Place(g.heap, g.openupval[g.running], slot, k) && forall u :: u in g.openupval[g.running] ==>
        g.heap[u].body.index != slot
  {
    var pp := g.openupval[g.running];
    k := 0;
    while k < |pp| && g.heap[pp[k]].body.index >= slot
      invariant 0 <= k <= |pp| && forall i :: 0 <= i < k ==> g.heap[pp[i]].body.index > slot
    {
      if g.heap[pp[k]].body.index == slot { return k, true; }
      k := k + 1;
    }
    found := false;
  }

  /** The new upvalue of luaF_findupval goes to its place in the list of the thread. */
  method Capture(g: GlobalState, slot: nat, k: nat, u: Obj)
    requires Ready(g) && g.heap[g.running].body.Fields? && slot < |g.heap[g.running].body.vals| && u !in g.heap
    requires g.running in g.openupval && Place(g.heap, g.openupval[g.running], slot, k)
    modifies g`heap, g`marked, g`openupval, g`uvhead
    ensures Ready(g) && g.heap == old(g.heap)[u := Shape(UPVAL, Slot(g.running, slot))]
        && g.marked == old(g.marked)[u := g.currentwhite]
  {
    hide Good, GlobalState.Valid, WFHeap, Descending;
    ghost var s := Now(g);
    ValidGood(g);
    Basics(s, {});
    CaptureOk(s, g.running, slot, k, u);
    g.heap := g.heap[u := Shape(UPVAL, Slot(g.running, slot))];
    g.marked := g.marked[u := g.currentwhite];
    g.openupval := g.openupval[g.running := g.openupval[g.running][..k] + [u] + g.openupval[g.running][k..]];
    g.uvhead := [u] + g.uvhead;
    SameState(Now(g), Captured(s, g.running, slot, k, u));
    ValidGood(g);
  }

  /** luaF_findupval: every closure that captures a live slot gets the same upvalue; a dead one
      that the sweep has not reached is kept. */
  method FindUpval(g: GlobalState, slot: nat, spare: Obj) returns (u: Obj)
    requires Ready(g) && g.heap[g.running].body.Fields? && slot < |g.heap[g.running].body.vals| && spare !in g.heap
    modifies g`heap, g`marked, g`openupval, g`uvhead
    ensures Ready(g) && OpenAt(g.heap, u, g.running, slot) && Usable(g, Ref(u))
    ensures (exists v :: OpenAt(old(g.heap), v, g.running, slot)) ==>
        g.heap == old(g.heap) && OpenAt(old(g.heap), u, g.running, slot)
    ensures !(exists v :: OpenAt(old(g.heap), v, g.running, slot)) ==>
        u == spare && g.heap == old(g.heap)[spare := Shape(UPVAL, Slot(g.running, slot))]
    ensures forall p :: p in old(g.marked) && !Dead(old(g.marked)[p], g.currentwhite) ==>
        p in g.marked && g.marked[p] == old(g.marked)[p]
  {
    hide Good, GlobalState.Valid, WFHeap, Place, Descending;
    ghost var s := Now(g);
    ValidGood(g);
    Basics(s, {});
    var k, found := FindPlace(g, slot);
    OneUpval(s, slot);
    if found {
      u := g.openupval[g.running][k];
      if g.marked[u] == OtherWhite(g.currentwhite) {
        SlotLive(s, u);
        ResurrectOk(s, u);
        g.marked := g.marked[u := g.currentwhite];
        SameState(Now(g), s.(marked := g.marked));
      }
      ValidGood(g);
      return;
    }
    u := spare;
    Capture(g, slot, k, spare);
  }

  /** All open upvalues of the running thread are in its list. */
  lemma OneUpval(s: State, slot: nat)
    requires Good(s, {})
    ensures s.running in s.openupval ==> forall v :: OpenAt(s.heap, v, s.running, slot) ==> v in s.openupval[s.running]
  {
    hide Live, AllLive, PhaseOk, RootList, StringTable, Chained, WFHeap, Descending;
  }

  /** No two open upvalues share a slot: that is what makes them shared cells. */
  lemma UpvalUnique(g: GlobalState, u: Obj, v: Obj, th: Obj, slot: nat)
    requires g.Valid() && OpenAt(g.heap, u, th, slot) && OpenAt(g.heap, v, th, slot)
    ensures u == v
  {
    hide LiveState, RootList, StringTable, g.InPhase, Chained;
    assert u in g.openupval[th] && v in g.openupval[th];
    assert Descending(g.heap, th, g.openupval[th]);
    var i :| 0 <= i < |g.openupval[th]| && g.openupval[th][i] == u;
    var j :| 0 <= j < |g.openupval[th]| && g.openupval[th][j] == v;
  }

  lemma SlotLive(s: State, u: Obj)
    requires Good(s, {}) && IsOpen(s.heap, u) && s.heap[u].body.thread == s.running
    ensures forall p :: Ref(p) in Values(s.heap, u) ==> p in s.marked && !Dead(s.marked[p], s.currentwhite)
  {
    hide Lists, PhaseOk, WFHeap, Chained;
    MainIsRoot(s.mainthread, s.running, s.registry, s.mt);
    forall p | Ref(p) in Values(s.heap, u) ensures p in s.marked && !Dead(s.marked[p], s.currentwhite) {
      assert Edge(s.heap, s.running, p);
    }
  }

  /** Closing keeps every value; only dead upvalues disappear, and slots below the level are
      still shared. */
  ghost predicate ClosedDown(h: Heap, m: Marks, h': Heap, m': Marks, cw: Colour, th: Obj, level: nat) {
    && m'.Keys == h'.Keys && h'.Keys <= h.Keys
    && (forall o :: o in h && o in m && o !in h' ==>
        Dead(m[o], cw) && IsOpen(h, o) && h[o].body.thread == th && h[o].body.index >= level)
    && (forall o :: o in m && !Dead(m[o], cw) ==> o in m' && !Dead(m'[o], cw))
    && (forall o :: o in h' ==> h'[o].tt == h[o].tt && Values(h', o) == Values(h, o))
    && (forall o :: o in h' ==>
        h'[o] == h[o] || (IsOpen(h, o) && h[o].body.thread == th && h[o].body.index >= level && h'[o].body.Fields?))
  }

  lemma ClosedDownTrans(h: Heap, m: Marks, h1: Heap, m1: Marks, h2: Heap, m2: Marks, cw: Colour, th: Obj, level: nat)
    requires ClosedDown(h, m, h1, m1, cw, th, level) && ClosedDown(h1, m1, h2, m2, cw, th, level) && m.Keys == h.Keys
    requires forall o :: o in h1 && Dead(m1[o], cw) ==> Dead(m[o], cw)
    ensures ClosedDown(h, m, h2, m2, cw, th, level)
  {
  }

  lemma ClosedDownRefl(h: Heap, m: Marks, cw: Colour, th: Obj, level: nat)
    requires m.Keys == h.Keys
    ensures ClosedDown(h, m, h, m, cw, th, level) && DeadBefore(m, m, cw)
  {
  }

  lemma ClosedDownOne(s: State, th: Obj, level: nat)
    requires Good(s, {}) && th in s.openupval && s.openupval[th] != [] && s.openupval[th][0] in s.heap
    requires s.openupval[th][0] in s.marked && !Dead(s.marked[s.openupval[th][0]], s.currentwhite)
    requires s.heap[s.openupval[th][0]].body.Slot? && s.heap[s.openupval[th][0]].body.index >= level
    ensures ClosedDown(s.heap, s.marked, ClosedState(s, th).heap, ClosedState(s, th).marked, s.currentwhite, th, level)
    ensures forall o :: o in ClosedState(s, th).marked && Dead(ClosedState(s, th).marked[o], s.currentwhite) ==>
        o in s.marked && Dead(s.marked[o], s.currentwhite)
    ensures Values(ClosedState(s, th).heap, s.openupval[th][0]) == Values(s.heap, s.openupval[th][0])
        && |Values(s.heap, s.openupval[th][0])| == 1
  {
    hide Lists, Live, AllLive, PhaseOk, Chained, FixedOk, WFHeap;
    FirstOpen(s, th);
    CloseHeap(s.heap, s.openupval[th][0]);
  }

  lemma FreedDownOne(s: State, th: Obj, level: nat)
    requires Good(s, {}) && th in s.openupval && s.openupval[th] != [] && s.openupval[th][0] in s.heap
    requires s.openupval[th][0] in s.marked && s.marked[s.openupval[th][0]] == OtherWhite(s.currentwhite)
    requires s.heap[s.openupval[th][0]].body.Slot? && s.heap[s.openupval[th][0]].body.index >= level
    ensures ClosedDown(s.heap, s.marked, FreedUpval(s, th).heap, FreedUpval(s, th).marked, s.currentwhite, th, level)
  {
    hide Lists, Live, AllLive, PhaseOk, Chained, FixedOk, WFHeap, Without;
    FirstOpen(s, th);
    FreeUpvalGood(s, th);
  }

  ghost predicate DeadBefore(m: Marks, m': Marks, cw: Colour) {
    forall o :: o in m' && Dead(m'[o], cw) ==> o in m && Dead(m[o], cw)
  }

  /** luaF_freeupval on a dead upvalue. */
  method CloseDead(g: GlobalState, ghost level: nat)
    requires Ready(g) && g.running in g.openupval && g.openupval[g.running] != []
    requires var u := g.openupval[g.running][0];
             u in g.heap && u in g.marked && g.heap[u].body.Slot? && g.heap[u].body.index >= level
                 && g.marked[u] == OtherWhite(g.currentwhite)
    modifies g`heap, g`marked, g`openupval, g`uvhead
    ensures g.Valid() && ClosedDown(old(g.heap), old(g.marked), g.heap, g.marked, g.currentwhite, g.running, level)
    ensures DeadBefore(old(g.marked), g.marked, g.currentwhite)
    ensures g.openupval == old(g.openupval)[g.running := old(g.openupval)[g.running][1..]]
  {
    hide Good, GlobalState.Valid, ClosedDown, Without;
    ghost var s := Now(g);
    ValidGood(g);
    FreeUpvalGood(s, g.running);
    FreedDownOne(s, g.running, level);
    var u := g.openupval[g.running][0];
    g.openupval := g.openupval[g.running := g.openupval[g.running][1..]];
    g.uvhead := Without(g.uvhead, u);
    g.heap := g.heap - {u};
    g.marked := g.marked - {u};
    SameState(Now(g), FreedUpval(s, g.running));
    ValidGood(g);
  }

  /** The upvalue moves from the lists of open ones to the root list. */
  method MoveUpval(g: GlobalState, u: Obj)
    requires g.running in g.openupval && g.openupval[g.running] != [] && g.openupval[g.running][0] == u
    modifies g`rootgc, g`sweepgc, g`openupval, g`uvhead
    ensures g.rootgc == [u] + old(g.rootgc) && g.sweepgc == if old(g.sweepgc) > 0 then old(g.sweepgc) + 1 else 0
    ensures g.openupval == old(g.openupval)[g.running := old(g.openupval)[g.running][1..]]
        && g.uvhead == Without(old(g.uvhead), u)
  {
    hide Without;
    g.openupval := g.openupval[g.running := g.openupval[g.running][1..]];
    g.uvhead := Without(g.uvhead, u);
    PutFirst(g, u);
  }

  /** luaF_close and luaC_linkupval on an upvalue that is not dead, up to the barrier. */
  method CloseAlive(g: GlobalState, u: Obj)
    requires g.running in g.openupval && g.openupval[g.running] != [] && g.openupval[g.running][0] == u && u in g.heap
        && u in g.marked
    modifies g`heap, g`marked, g`rootgc, g`sweepgc, g`openupval, g`uvhead
    ensures Now(g) == ClosedState(old(Now(g)), g.running)
  {
    hide Without, Closed, LinkedColour;
    ghost var s := Now(g);
    g.heap := g.heap[u := Closed(g.heap, u)];
    g.marked := g.marked[u := LinkedColour(g.gcstate, g.currentwhite, g.marked[u])];
    MoveUpval(g, u);
    SameState(Now(g), ClosedState(s, g.running));
  }

  lemma CloseAliveOk(s: State, th: Obj, level: nat)
    requires Good(s, {}) && th in s.openupval && s.openupval[th] != []
    requires var u := s.openupval[th][0];
             u in s.heap && u in s.marked && s.heap[u].body.Slot? && s.heap[u].body.index >= level
                 && !Dead(s.marked[u], s.currentwhite)
    ensures var u, s' := s.openupval[th][0], ClosedState(s, th);
            && Good(s', {u}) && u in s'.heap && u in s'.marked && |Values(s'.heap, u)| == 1 && !s'.marked[u].Gray?
                && !Dead(s'.marked[u], s.currentwhite)
            && ClosedDown(s.heap, s.marked, s'.heap, s'.marked, s.currentwhite, th, level)
                && DeadBefore(s.marked, s'.marked, s.currentwhite)
  {
    hide Good, ClosedDown, Without, Closed, Values;
    Basics(s, {});
    CloseLiveOk(s, th);
    ClosedDownOne(s, th, level);
  }

  /** One turn of luaF_close. */
  method CloseOne(g: GlobalState, ghost level: nat)
    requires Ready(g) && g.running in g.openupval && g.openupval[g.running] != []
    requires g.openupval[g.running][0] in g.heap && g.heap[g.openupval[g.running][0]].body.Slot?
        && g.heap[g.openupval[g.running][0]].body.index >= level
    modifies g`heap, g`marked, g`gray, g`rootgc, g`sweepgc, g`openupval, g`uvhead
    ensures Ready(g) && ClosedDown(old(g.heap), old(g.marked), g.heap, g.marked, g.currentwhite, g.running, level)
    ensures DeadBefore(old(g.marked), g.marked, g.currentwhite)
    ensures g.openupval == old(g.openupval)[g.running := old(g.openupval)[g.running][1..]]
  {
    hide Good, GlobalState.Valid, WFHeap, Descending, ClosedDown, Closed, Values, DeadBefore;
    ghost var s := Now(g);
    ValidGood(g);
    Basics(s, {});
    var u := g.openupval[g.running][0];
    if g.marked[u] == OtherWhite(g.currentwhite) {
      CloseDead(g, level);
    } else {
      CloseAliveOk(s, g.running, level);
      CloseAlive(g, u);
      LinkUpval(g, u, s, level);
    }
    StillRunning(s.heap, s.marked, g.heap, g.marked, g.currentwhite, g.running, level);
  }

  /** The barrier of luaC_linkupval. */
  method LinkUpval(g: GlobalState, u: Obj, ghost s: State, ghost level: nat)
    requires Good(Now(g), {u}) && u in g.marked && u in g.heap && |Values(g.heap, u)| == 1
        && s.marked.Keys == s.heap.Keys
    requires !g.marked[u].Gray?
    requires ClosedDown(s.heap, s.marked, g.heap, g.marked, g.currentwhite, g.running, level)
        && DeadBefore(s.marked, g.marked, g.currentwhite)
    requires !Dead(g.marked[u], g.currentwhite)
    modifies g`marked, g`gray
    ensures g.Valid() && ClosedDown(s.heap, s.marked, g.heap, g.marked, g.currentwhite, g.running, level)
        && DeadBefore(s.marked, g.marked, g.currentwhite)
  {
    hide Good, GlobalState.Valid, WFHeap, Values, ClosedDown, DeadBefore;
    ghost var m := g.marked;
    Basics(Now(g), {u});
    ValueLive(Now(g), u);
    Barrier(g, u, Values(g.heap, u)[0]);
    ValidGood(g);
    Basics(Now(g), {});
    MarksOnly(s.heap, s.marked, g.heap, m, g.marked, g.currentwhite, g.running, level);
  }

  lemma StillRunning(h: Heap, m: Marks, h': Heap, m': Marks, cw: Colour, th: Obj, level: nat)
    requires ClosedDown(h, m, h', m', cw, th, level) && th in h && th in m && !Dead(m[th], cw)
    ensures th in h' && h'[th].tt == h[th].tt
  {
  }

  lemma ValueLive(s: State, u: Obj)
    requires Good(s, {u}) && u in s.marked && u in s.heap && !Dead(s.marked[u], s.currentwhite)
    ensures forall p :: Ref(p) in Values(s.heap, u) ==> p in s.marked && !Dead(s.marked[p], s.currentwhite)
  {
    hide Lists, PhaseOk, WFHeap, Chained, AllLive, RootsOf;
    forall p | Ref(p) in Values(s.heap, u) ensures p in s.marked && !Dead(s.marked[p], s.currentwhite) {
      assert Edge(s.heap, u, p);
    }
  }

  lemma MarksOnly(h: Heap, m: Marks, h': Heap, m1: Marks, m2: Marks, cw: Colour, th: Obj, level: nat)
    requires ClosedDown(h, m, h', m1, cw, th, level) && DeadBefore(m, m1, cw) && m2.Keys == m1.Keys
    requires forall p :: p in m1 && !Dead(m1[p], cw) ==> p in m2 && !Dead(m2[p], cw)
    ensures ClosedDown(h, m, h', m2, cw, th, level) && DeadBefore(m, m2, cw)
  {
  }

  /** luaF_close: no slot at the level or above is shared any more. */
  method Close(g: GlobalState, level: nat)
    requires Ready(g)
    modifies g`heap, g`marked, g`gray, g`rootgc, g`sweepgc, g`openupval, g`uvhead
    ensures Ready(g) && ClosedDown(old(g.heap), old(g.marked), g.heap, g.marked, g.currentwhite, g.running, level)
    ensures forall u :: IsOpen(g.heap, u) && g.heap[u].body.thread == g.running ==> g.heap[u].body.index < level
  {
    hide Good, GlobalState.Valid, WFHeap, Descending, ClosedDown, DeadBefore;
    ghost var h0, m0 := g.heap, g.marked;
    ValidGood(g);
    Basics(Now(g), {});
    ClosedDownRefl(h0, m0, g.currentwhite, g.running, level);
    var more := true;
    while more
      invariant Ready(g) && ClosedDown(h0, m0, g.heap, g.marked, g.currentwhite, g.running, level)
      invariant DeadBefore(m0, g.marked, g.currentwhite)
      invariant !more ==> forall u :: IsOpen(g.heap, u) && g.heap[u].body.thread == g.running ==>
          g.heap[u].body.index < level
      decreases more, if g.running in g.openupval then |g.openupval[g.running]| else 0
    {
      ghost var h, m := g.heap, g.marked;
      ValidGood(g);
      Basics(Now(g), {});
      TopFirst(Now(g));
      if g.openupval[g.running] != [] && g.heap[g.openupval[g.running][0]].body.index >= level {
        CloseOne(g, level);
        ClosedDownMore(h0, m0, h, m, g.heap, g.marked, g.currentwhite, g.running, level);
      } else {
        more := false;
      }
    }
  }

  lemma ClosedDownMore(h: Heap, m: Marks, h1: Heap, m1: Marks, h2: Heap, m2: Marks, cw: Colour, th: Obj, level: nat)
    requires ClosedDown(h, m, h1, m1, cw, th, level) && ClosedDown(h1, m1, h2, m2, cw, th, level) && m.Keys == h.Keys
    requires DeadBefore(m, m1, cw) && DeadBefore(m1, m2, cw)
    ensures ClosedDown(h, m, h2, m2, cw, th, level) && DeadBefore(m, m2, cw)
  {
    ClosedDownTrans(h, m, h1, m1, h2, m2, cw, th, level);
  }

  /** The first upvalue in the list has the highest slot. */
  lemma TopFirst(s: State)
    requires Good(s, {}) && s.running in s.openupval
    ensures var l := s.openupval[s.running];
            && (l != [] ==> l[0] in s.heap && s.heap[l[0]].body.Slot?)
            && forall u :: IsOpen(s.heap, u) && s.heap[u].body.thread == s.running ==>
                l != [] && s.heap[u].body.index <= s.heap[l[0]].body.index
  {
    hide Live, AllLive, PhaseOk, RootList, StringTable, Chained, WFHeap;
    var l := s.openupval[s.running];
    assert Descending(s.heap, s.running, l);
    forall u | IsOpen(s.heap, u) && s.heap[u].body.thread == s.running
      ensures l != [] && s.heap[u].body.index <= s.heap[l[0]].body.index
    {
      var i :| 0 <= i < |l| && l[i] == u;
    }
  }

  // ----- strings -----

  /** luaS_newlstr looks through the chain of the hash. */
  method FindString(g: GlobalState, str: Text) returns (o: Obj, found: bool)
    requires StringTable(g.heap, g.strt, g.hash)
    ensures found ==> o in g.heap && g.heap[o].body == Bytes(str)
    ensures !found ==> forall p :: p in g.heap ==> g.heap[p].body != Bytes(str)
  {
    var chain := g.strt[Bucket(g.hash, |g.strt|, str)];
    var i := 0;
    o := 0;
    while i < |chain|
      invariant 0 <= i <= |chain| && forall j :: 0 <= j < i ==> g.heap[chain[j]].body != Bytes(str)
    {
      assert chain[i] in chain;
      if g.heap[chain[i]].body == Bytes(str) { return chain[i], true; }
      i := i + 1;
    }
    forall p | p in g.heap ensures g.heap[p].body != Bytes(str) {
      if g.heap[p].body == Bytes(str) {
        Interned(g.heap, g.strt, g.hash, str, p);
      }
    }
    found := false;
  }

  /** newlstr: the new string is chained, and the table grows when it is too crowded. */
  method AddString(g: GlobalState, str: Text, spare: Obj)
    requires g.Valid() && spare !in g.heap && forall p :: p in g.heap ==> g.heap[p].body != Bytes(str)
    modifies g`heap, g`marked, g`strt, g`nuse
    ensures g.Valid() && g.heap == old(g.heap)[spare := Shape(STRING, Bytes(str))]
        && g.marked == old(g.marked)[spare := g.currentwhite]
    ensures g.nuse == old(g.nuse) + 1
    ensures |g.strt| ==
            if !g.gcstate.SweepString? && g.nuse > |old(g.strt)| && |old(g.strt)| <= MAX_INT / 2
            then |old(g.strt)| * 2 else |old(g.strt)|
  {
    hide Good, GlobalState.Valid, WFHeap;
    ghost var s := Now(g);
    ValidGood(g);
    Basics(s, {});
    NewStringOk(s, spare, str);
    var b := Bucket(g.hash, |g.strt|, str);
    g.heap := g.heap[spare := Shape(STRING, Bytes(str))];
    g.marked := g.marked[spare := g.currentwhite];
    g.strt := g.strt[b := [spare] + g.strt[b]];
    g.nuse := g.nuse + 1;
    SameState(Now(g), NewStringState(s, spare, str));
    ValidGood(g);
    if g.nuse > |g.strt| && |g.strt| <= MAX_INT / 2 {
      ListedNow(g);
      ghost var s1 := Now(g);
      g.Resize(|g.strt| * 2);
      SameState(Now(g), s1.(strt := g.strt));
      Rehash(s1, Now(g));
      ValidGood(g);
    }
  }

  lemma ListedNow(g: GlobalState)
    requires g.Valid()
    ensures g.Listed() && |g.strt| > 0
  {
    hide RootList, OpenLists, LiveState, g.InPhase, Chained;
  }

  /** Only the sweep of the strings depends on where they are chained. */
  lemma Rehash(s: State, s': State)
    requires Good(s, {}) && s' == s.(strt := s'.strt) && ListsOf(s') && (s.gcstate.SweepString? ==> s'.strt == s.strt)
    ensures Good(s', {})
  {
    hide Lists, LiveState, Chained, RootSwept, StringsSwept, MarkState, AllMarked, AllCurrent, OpenNotBlack,
        StringsCurrent, RootsOf;
  }

  /** luaS_newlstr: there is one string for each sequence of bytes; a dead one is kept when it
      is wanted again before the sweep has reached it. */
  method NewString(g: GlobalState, str: Text, spare: Obj) returns (o: Obj)
    requires g.Valid() && spare !in g.heap
    modifies g`heap, g`marked, g`strt, g`nuse
    ensures g.Valid() && o in g.heap && g.heap[o].body == Bytes(str) && Usable(g, Ref(o))
    ensures forall p :: p in g.heap && g.heap[p].body == Bytes(str) ==> p == o
    ensures (exists p :: p in old(g.heap) && old(g.heap)[p].body == Bytes(str)) ==> g.heap == old(g.heap)
    ensures !(exists p :: p in old(g.heap) && old(g.heap)[p].body == Bytes(str)) ==>
        o == spare && g.heap == old(g.heap)[o := Shape(STRING, Bytes(str))]
    ensures forall p :: p in old(g.marked) && !Dead(old(g.marked)[p], g.currentwhite) ==>
        p in g.marked && g.marked[p] == old(g.marked)[p]
  {
    hide Good, GlobalState.Valid, WFHeap, StringTable;
    ghost var s := Now(g);
    ValidGood(g);
    Basics(s, {});
    TableNow(g);
    var found;
    o, found := FindString(g, str);
    if found {
      if g.marked[o] == OtherWhite(g.currentwhite) {
        ResurrectOk(s, o);
        g.marked := g.marked[o := g.currentwhite];
        SameState(Now(g), s.(marked := g.marked));
        ValidGood(g);
      }
    } else {
      o := spare;
      AddString(g, str, spare);
    }
    TableNow(g);
    ValidGood(g);
    Basics(Now(g), {});
  }

  lemma TableNow(g: GlobalState)
    requires g.Valid()
    ensures StringTable(g.heap, g.strt, g.hash)
    ensures forall o, p :: o in g.heap && p in g.heap && g.heap[o].body.Bytes? && g.heap[p].body == g.heap[o].body ==>
        o == p
  {
    hide RootList, OpenLists, LiveState, g.InPhase, Chained;
  }

  /** Every string the table counts is in the heap, and the other way round. */
  lemma CountsStrings(g: GlobalState)
    requires g.Valid()
    ensures g.nuse == Chained(g.strt)
    ensures forall o :: o in g.heap && g.heap[o].body.Bytes? <==> exists b :: 0 <= b < |g.strt| && o in g.strt[b]
  {
    hide RootList, OpenLists, LiveState, g.InPhase, Chained;
    forall o ensures o in g.heap && g.heap[o].body.Bytes? <==> exists b :: 0 <= b < |g.strt| && o in g.strt[b] {
      if o in g.heap && g.heap[o].body.Bytes? { assert o in g.strt[Bucket(g.hash, |g.strt|, g.heap[o].body.s)]; }
    }
  }

  lemma FixOk(s: State, o: Obj)
    requires Good(s, {}) && o in s.heap && s.heap[o].body.Bytes?
    ensures Good(s.(fixed := s.fixed + {o}), {})
  {
    hide Lists, Live, AllLive, Chained, WFHeap, MarkState, StringsSwept, RootSwept, RootsOf;
  }

  /** luaS_fix: the string is never collected. */
  method Fix(g: GlobalState, o: Obj)
    requires g.Valid() && o in g.heap && g.heap[o].body.Bytes?
    modifies g`fixed
    ensures g.Valid() && g.fixed == old(g.fixed) + {o}
  {
    hide Good, GlobalState.Valid;
    ghost var s := Now(g);
    ValidGood(g);
    FixOk(s, o);
    g.fixed := g.fixed + {o};
    SameState(Now(g), s.(fixed := g.fixed));
    ValidGood(g);
  }
}
