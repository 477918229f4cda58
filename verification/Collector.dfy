/** The incremental collector (lgc.c). */
module Collector {
  import opened Common
  import opened GcHeap
  import opened GcLists
  import opened StringTables

  datatype Phase = Pause | Propagate | SweepString | Sweep | Finalize

  /** The main thread, the thread that runs, the registry and the basic metatables. */
  function RootsOf(mainthread: Obj, running: Obj, registry: Value, mt: seq<Value>): set<Obj> {
    {mainthread, running} + RefsOf([registry] + mt)
  }

  const GCSWEEPMAX: nat := 40

  /** h is what is left of h0 when exactly the reachable and the fixed objects survive, with
      what they held. */
  ghost predicate Collected(h0: Heap, h: Heap, fixed: set<Obj>, roots: set<Obj>) {
    && (forall o :: o in h <==> o in h0 && (Reach(h0, roots, o) || o in fixed))
    && (forall o :: o in h ==> h[o].tt == h0[o].tt && Values(h, o) == Values(h0, o))
    && (forall o :: Reach(h, roots, o) <==> Reach(h0, roots, o))
  }

  class GlobalState {
    const hash: Text -> nat
    var heap: Heap
    var marked: Marks
    var fixed: set<Obj>               // objects never collected
    var currentwhite: Colour
    var gcstate: Phase
    var gray: seq<Obj>
    var grayagain: seq<Obj>
    var rootgc: seq<Obj>              // all objects but strings and open upvalues
    var sweepgc: nat                  // how much of rootgc has been swept
    var strt: seq<seq<Obj>>           // the string table
    var nuse: nat                     // how many strings it holds
    var sweepstrgc: nat               // how many of its buckets have been swept
    var openupval: map<Obj, seq<Obj>> // the open upvalues of each thread
    var uvhead: seq<Obj>              // all open upvalues
    var mainthread: Obj
    var registry: Value
    var mt: seq<Value>                // metatables of basic types
    var running: Obj                  // the thread that runs now

    /** f_luaopen: only the main thread, the registry and an empty string table. */
    constructor (hash: Text -> nat, mainthread: Obj, registry: Obj, stack: seq<Value>)
      ensures heap == map[mainthread := Shape(THREAD, Fields(stack)), registry := Shape(TABLE, Fields([]))]
      ensures marked == map[mainthread := White0, registry := White0] && fixed == {mainthread} && currentwhite == White0
          && gcstate == Pause
      ensures gray == [] && grayagain == [] && rootgc == [registry, mainthread] && sweepgc == 0
          && strt == EmptyTable(MINSTRTABSIZE) && nuse == 0
      ensures sweepstrgc == 0 && openupval == map[mainthread := []] && uvhead == []
          && this.mainthread == running == mainthread
      ensures this.registry == Ref(registry) && mt == [] && this.hash == hash
    {
      this.hash := hash;
      heap := map[mainthread := Shape(THREAD, Fields(stack)), registry := Shape(TABLE, Fields([]))];
      marked := map[mainthread := White0, registry := White0];
      fixed := {mainthread};
      currentwhite := White0;
      gcstate := Pause;
      gray := [];
      grayagain := [];
      rootgc := [registry, mainthread];
      sweepgc := 0;
      strt := EmptyTable(MINSTRTABSIZE);
      nuse := 0;
      sweepstrgc := 0;
      openupval := map[mainthread := []];
      uvhead := [];
      this.mainthread := mainthread;
      this.registry := Ref(registry);
      mt := [];
      running := mainthread;
    }

    ghost predicate Listed()
      reads this
    {
      Lists(heap, rootgc, strt, hash, openupval, uvhead) && nuse == Chained(strt)
    }

    ghost predicate Alive()
      reads this
    {
      LiveState(heap, marked, currentwhite, fixed, mainthread, Roots())
    }

    /** What the colours mean in each phase. */
    ghost predicate InPhase()
      reads this
    {
      match gcstate
      case Propagate => Marking(Unfinished(), {}) && AllMarked({mainthread} + RefsOf([registry]), marked)
      case SweepString => StringsSwept(marked, currentwhite, strt, sweepstrgc) && sweepstrgc < |strt| && sweepgc == 0
          && OpenNotBlack(heap, marked)
      case Sweep => StringsCurrent(heap, marked, currentwhite)
          && RootSwept(marked, currentwhite, rootgc, openupval, sweepgc) && OpenNotBlack(heap, marked)
      case _ => AllCurrent(marked, currentwhite)
    }

    ghost predicate Valid()
      reads this
    {
      Listed() && Alive() && InPhase()
    }

    // ----- marking -----

    ghost predicate Marking(pend: set<Obj>, exempt: set<Obj>)
      reads this
    {
      MarkState(heap, marked, currentwhite, gray, grayagain, pend, exempt)
    }

    /** reallymarkobject: o and everything it refers to that cannot wait is marked. */
    method ReallyMark(o: Obj, ghost pend: set<Obj>, ghost exempt: set<Obj>, ghost s: iset<Obj>)
      requires Marking(pend, exempt) && o in marked && IsWhite(marked[o])
      requires ClosedSet(heap, s) && o in s
      modifies this`marked, this`gray
      ensures Marking(pend, exempt) && !IsWhite(marked[o])
      ensures Grows(old(marked), marked) && Within(old(marked), marked, s) && Whites(marked) < Whites(old(marked))
      decreases Whites(marked), 0
    {
      hide MarkState, Grows, Within, Whites, ClosedSet;
      ghost var m0 := marked;
      KnownMarks(pend, exempt);
      ReferencesIn(heap, s, o);
      match heap[o].tt {
        case STRING =>
          MarkOne(marked, o, Gray, s);
          GrayString(heap, marked, currentwhite, gray, grayagain, pend, exempt, o);
          marked := marked[o := Gray];
        case USERDATA =>
          MarkOne(marked, o, Black, s);
          MarkPending(heap, marked, currentwhite, gray, grayagain, pend, exempt, o, Black);
          marked := marked[o := Black];
          ghost var m1 := marked;
          MarkAll(Values(heap, o), pend + {o}, exempt, s);
          StaysMarked(m1, marked, o);
          MarkDone(heap, marked, currentwhite, gray, grayagain, pend, exempt, o);
          GrowsTrans(m0, m1, marked, s);
        case UPVAL =>
          MarkOne(marked, o, Gray, s);
          MarkPending(heap, marked, currentwhite, gray, grayagain, pend, exempt, o, Gray);
          marked := marked[o := Gray];
          ghost var m1 := marked;
          MarkAll(Values(heap, o), pend + {o}, exempt + {o}, s);
          StaysMarked(m1, marked, o);
          MarkDone(heap, marked, currentwhite, gray, grayagain, pend, exempt + {o}, o);
          GrowsTrans(m0, m1, marked, s);
          UpvalDone(heap, marked, currentwhite, gray, grayagain, pend, exempt, o);
          if heap[o].body.Fields? {
            Blacken(m0, marked, o, s);
            marked := marked[o := Black];
          }
        case _ =>
          MarkOne(marked, o, Gray, s);
          GrayPush(heap, marked, currentwhite, gray, grayagain, pend, exempt, o);
          marked := marked[o := Gray];
          gray := [o] + gray;
      }
    }

    lemma KnownMarks(pend: set<Obj>, exempt: set<Obj>)
      requires Marking(pend, exempt)
      ensures marked.Keys == heap.Keys && NoDangling(heap)
    {
    }

    /** markvalue for each of some values. */
    method MarkAll(vs: seq<Value>, ghost pend: set<Obj>, ghost exempt: set<Obj>, ghost s: iset<Obj>)
      requires Marking(pend, exempt) && ClosedSet(heap, s)
      requires forall p :: Ref(p) in vs ==> p in heap && p in s
      modifies this`marked, this`gray
      ensures Marking(pend, exempt) && forall p :: Ref(p) in vs ==> p in marked && !IsWhite(marked[p])
      ensures Grows(old(marked), marked) && Within(old(marked), marked, s)
      ensures (marked == old(marked) && gray == old(gray)) || Whites(marked) < Whites(old(marked))
      decreases Whites(marked), 1
    {
      hide MarkState, Within, ClosedSet;
      ghost var m0 := marked;
      GrowsRefl(m0, s);
      var i := 0;
      while i < |vs|
        invariant 0 <= i <= |vs|
        invariant Marking(pend, exempt) && Grows(m0, marked) && Within(m0, marked, s)
        invariant forall j :: 0 <= j < i && vs[j].Ref? ==> vs[j].o in marked && !IsWhite(marked[vs[j].o])
        invariant (marked == m0 && gray == old(gray)) || Whites(marked) < Whites(m0)
      {
        KnownMarks(pend, exempt);
        if vs[i].Ref? && IsWhite(marked[vs[i].o]) {
          WhitesShrink(m0, marked);
          ghost var m1 := marked;
          ReallyMark(vs[i].o, pend, exempt, s);
          GrowsTrans(m0, m1, marked, s);
        }
        i := i + 1;
      }
    }

    // ----- the mark phase -----

    /** propagatemark: the first gray object is traversed. */
    method PropagateMark(ghost pend: set<Obj>, ghost s: iset<Obj>)
      requires Marking(pend, {}) && gray != [] && ClosedSet(heap, s) && MarkedIn(marked, s)
      modifies this`marked, this`gray, this`grayagain
      ensures Marking(pend, {}) && MarkedIn(marked, s) && Onward(old(marked), marked)
      ensures Elems(old(grayagain)) <= Elems(grayagain)
      ensures Whites(marked) < Whites(old(marked)) || (Whites(marked) == Whites(old(marked)) && |gray| < |old(gray)|)
    {
      hide MarkState, Grows, Within, Whites, ClosedSet, MarkedIn, Onward, Elems;
      ghost var m0 := marked;
      var o := gray[0];
      KnownMarks(pend, {});
      GrayMarked(pend, s);
      ReferencesIn(heap, s, o);
      assert marked[o].Gray?;
      if heap[o].tt == THREAD {
        PopThread(heap, marked, currentwhite, gray, grayagain, pend);
        OnwardRefl(marked);
        AddElem(o, grayagain);
        gray := gray[1..];
        grayagain := [o] + grayagain;
      } else {
        PopBlack(heap, marked, currentwhite, gray, grayagain, pend);
        BlackIn(marked, o, s);
        marked := marked[o := Black];
        gray := gray[1..];
      }
      ghost var m1 := marked;
      MarkAll(Values(heap, o), pend + {o}, {}, s);
      GrowsOnward(m1, marked, s);
      OnwardTrans(m0, m1, marked);
      OnwardKeys(m0, marked);
      MarkDone(heap, marked, currentwhite, gray, grayagain, pend, {}, o);
    }

    lemma GrayMarked(pend: set<Obj>, s: iset<Obj>)
      requires Marking(pend, {}) && gray != [] && MarkedIn(marked, s)
      ensures gray[0] in marked && gray[0] in heap && marked[gray[0]].Gray? && gray[0] in s
    {
      assert gray[0] in gray + grayagain;
    }

    /** propagateall. */
    method PropagateAll(ghost pend: set<Obj>, ghost s: iset<Obj>)
      requires Marking(pend, {}) && ClosedSet(heap, s) && MarkedIn(marked, s)
      modifies this`marked, this`gray, this`grayagain
      ensures Marking(pend, {}) && MarkedIn(marked, s) && Onward(old(marked), marked) && gray == []
      ensures Elems(old(grayagain)) <= Elems(grayagain)
    {
      hide MarkState, ClosedSet, MarkedIn, Whites, Elems;
      while gray != []
        invariant Marking(pend, {}) && MarkedIn(marked, s) && Onward(old(marked), marked)
        invariant Elems(old(grayagain)) <= Elems(grayagain)
        decreases Whites(marked), |gray|
      {
        PropagateMark(pend, s);
      }
    }

    function Roots(): set<Obj>
      reads this
    {
      RootsOf(mainthread, running, registry, mt)
    }

    /** Open upvalues, and objects caught by a barrier, may refer to white objects. */
    ghost function Unfinished(): set<Obj>
      reads this
    {
      Elems(grayagain) + Elems(uvhead)
    }

    /** markroot. */
    method MarkRoot(ghost s: iset<Obj>)
      requires marked.Keys == heap.Keys && WFHeap(heap) && IsWhite(currentwhite) && AllCurrent(marked, currentwhite)
      requires Live(heap, marked, currentwhite) && AllLive(Roots(), marked, currentwhite)
          && heap[mainthread].tt == THREAD
      requires ClosedSet(heap, s) && forall r :: r in Roots() ==> r in s
      modifies this`marked, this`gray, this`grayagain, this`gcstate
      ensures gcstate == Propagate && Marking({}, {}) && MarkedIn(marked, s)
      ensures AllMarked({mainthread} + RefsOf([registry]), marked)
    {
      hide MarkState, Live, ClosedSet, Grows, Within, AllCurrent, AllLive, MarkedIn, Onward, WFHeap;
      gray := [];
      grayagain := [];
      FreshMarks(heap, marked, currentwhite, s);
      ghost var m0 := marked;
      var roots := [Ref(mainthread)] + [registry] + mt;
      RootRefs(roots);
      MarkAll(roots, {}, {}, s);
      GrowsOnward(m0, marked, s);
      BaseMarked(marked, mainthread, registry, roots);
      gcstate := Propagate;
    }

    lemma RootRefs(vs: seq<Value>)
      requires vs == [Ref(mainthread)] + [registry] + mt && AllLive(Roots(), marked, currentwhite)
          && marked.Keys == heap.Keys
      ensures forall p :: Ref(p) in vs ==> p in heap && p in Roots()
    {
      forall p | Ref(p) in vs ensures p in heap && p in Roots() {
        if p != mainthread {
          assert Ref(p) in [registry] + mt;
        }
      }
    }

    /** remarkupvals. */
    method RemarkUpvals(ghost pend: set<Obj>, ghost s: iset<Obj>)
      requires Marking(pend + Elems(uvhead), {}) && ClosedSet(heap, s) && MarkedIn(marked, s)
      requires forall u :: u in uvhead ==> IsOpen(heap, u)
      modifies this`marked, this`gray
      ensures Marking(pend, {}) && MarkedIn(marked, s) && Onward(old(marked), marked)
    {
      hide MarkState, ClosedSet, MarkedIn, Onward, Grows, Within;
      OnwardRefl(marked);
      assert uvhead[0..] == uvhead;
      var i := 0;
      while i < |uvhead|
        invariant 0 <= i <= |uvhead|
        invariant Marking(pend + Elems(uvhead[i..]), {}) && MarkedIn(marked, s) && Onward(old(marked), marked)
      {
        var uv := uvhead[i];
        ghost var rest := pend + Elems(uvhead[i + 1..]);
        assert uvhead[i..] == [uv] + uvhead[i + 1..];
        assert pend + Elems(uvhead[i..]) == rest + {uv};
        KnownMarks(rest + {uv}, {});
        assert IsOpen(heap, uv);
        if marked[uv].Gray? {
          ghost var m1 := marked;
          GrayIn(marked, uv, s);
          ReferencesIn(heap, s, uv);
          MarkAll(Values(heap, uv), rest + {uv}, {}, s);
          GrowsOnward(m1, marked, s);
          OnwardTrans(old(marked), m1, marked);
          OnwardKeys(m1, marked);
          MarkDone(heap, marked, currentwhite, gray, grayagain, rest, {}, uv);
        } else {
          NotGray(heap, marked, currentwhite, gray, grayagain, rest, uv);
        }
        i := i + 1;
      }
      assert uvhead[i..] == [];
      assert pend + Elems(uvhead[i..]) == pend;
    }

    /** The marking that atomic does without interruption. */
    method FinishMarking(ghost s: iset<Obj>)
      requires Marking(Unfinished(), {}) && gray == [] && ClosedSet(heap, s) && MarkedIn(marked, s)
      requires (forall u :: u in uvhead ==> IsOpen(heap, u)) && AllLive(Roots(), marked, currentwhite)
      requires (forall r :: r in Roots() ==> r in s) && AllMarked({mainthread} + RefsOf([registry]), marked)
      modifies this`marked, this`gray, this`grayagain
      ensures Marking({}, {}) && gray == [] && MarkedIn(marked, s) && AllMarked(Roots(), marked)
    {
      hide MarkState, ClosedSet, Grows, Within, MarkedIn, Onward, AllMarked, AllLive, RefsOf;
      ghost var ga, m0 := Elems(grayagain), marked;
      var roots := [Ref(running)] + mt;
      KnownMarks(Unfinished(), {});
      RunningRefs(roots, marked, currentwhite);
      RemarkUpvals(ga, s);
      ghost var m1 := marked;
      PropagateAll(ga, s);
      OnwardTrans(m0, m1, marked);
      ghost var m2 := marked;
      MarkAll(roots, ga, {}, s);
      GrowsOnward(m2, marked, s);
      OnwardTrans(m0, m2, marked);
      ghost var m3 := marked;
      PropagateAll(ga, s);
      ghost var m4 := marked;
      GrayAgain(heap, marked, currentwhite, grayagain, ga);
      gray := grayagain;
      grayagain := [];
      PropagateAll({}, s);
      OnwardTrans(m3, m4, marked);
      RootsMarked(m0, m3, roots);
    }

    /** atomic: the mark phase ends and the whites change roles. */
    method Atomic(ghost s: iset<Obj>)
      requires Marking(Unfinished(), {}) && gray == [] && ClosedSet(heap, s) && MarkedIn(marked, s)
      requires (forall u :: u in uvhead ==> IsOpen(heap, u)) && AllLive(Roots(), marked, currentwhite)
      requires (forall r :: r in Roots() ==> r in s) && AllMarked({mainthread} + RefsOf([registry]), marked)
      modifies this`marked, this`gray, this`grayagain, this`currentwhite, this`sweepstrgc, this`sweepgc, this`gcstate
      ensures gcstate == SweepString && sweepstrgc == 0 && sweepgc == 0 && currentwhite == OtherWhite(old(currentwhite))
      ensures marked.Keys == heap.Keys && IsWhite(currentwhite) && Live(heap, marked, currentwhite)
          && AllLive(Roots(), marked, currentwhite)
      ensures forall o :: o in marked && !Dead(marked[o], currentwhite) ==> o in s
      ensures OpenNotBlack(heap, marked)
    {
      hide MarkState, ClosedSet, Live, MarkedIn, AllMarked, AllLive, Dead, OpenNotBlack;
      FinishMarking(s);
      KnownMarks({}, {});
      OpenNeverBlack({});
      Flip(heap, marked, currentwhite, grayagain, Roots());
      AliveIn(marked, currentwhite, s);
      currentwhite := OtherWhite(currentwhite);
      sweepstrgc := 0;
      sweepgc := 0;
      gcstate := SweepString;
    }

    lemma OpenNeverBlack(pend: set<Obj>)
      requires Marking(pend, {})
      ensures OpenNotBlack(heap, marked)
    {
    }

    lemma RunningRefs(vs: seq<Value>, m: Marks, cw: Colour)
      requires vs == [Ref(running)] + mt && AllLive(Roots(), m, cw) && m.Keys == heap.Keys
      ensures forall p :: Ref(p) in vs ==> p in heap && p in Roots()
    {
      forall p | Ref(p) in vs ensures p in heap && p in Roots() {
        if p != running {
          var i :| 0 <= i < |mt| && mt[i] == Ref(p);
          assert ([registry] + mt)[i + 1] == Ref(p);
        }
      }
    }

    lemma RootsMarked(m0: Marks, m: Marks, vs: seq<Value>)
      requires vs == [Ref(running)] + mt && Onward(m0, m) && Onward(m, marked)
      requires AllMarked({mainthread} + RefsOf([registry]), m0)
      requires forall p :: Ref(p) in vs ==> p in m && !IsWhite(m[p])
      ensures AllMarked(Roots(), marked)
    {
      forall r | r in Roots() ensures r in marked && !IsWhite(marked[r]) {
        if r == mainthread {
        } else if r == running {
          assert vs[0] == Ref(r);
        } else if registry == Ref(r) {
          assert [registry][0] == Ref(r);
        } else {
          var i :| 0 <= i < |[registry] + mt| && ([registry] + mt)[i] == Ref(r);
          assert mt[i - 1] == Ref(r) && vs[i] == Ref(r);
        }
      }
    }

    // ----- the sweep phase -----

    /** One turn of sweeplist in the string table: the string stays, or is freed. */
    method SweepOneString(b: nat, i: nat) returns (kept: bool)
      requires Listed() && Alive() && b < |strt| && i < |strt[b]|
      modifies this`heap, this`marked, this`strt, this`nuse
      ensures Listed() && Alive() && Swept(old(heap), old(marked), heap, marked, currentwhite, fixed)
      ensures var curr := old(strt)[b][i];
              if kept then
                && heap == old(heap) && curr in old(marked) && marked == old(marked)[curr := currentwhite]
                && strt == old(strt)
              else
                && heap == old(heap) - {curr} && marked == old(marked) - {curr}
                && strt == old(strt)[b := RemoveAt(old(strt)[b], i)]
    {
      hide Lists, LiveState, Swept, RootsOf, RemoveAt, NoDup, Chained, WFHeap, Live, AllLive, FixedOk;
      var curr := strt[b][i];
      StateWF(heap, marked, currentwhite, fixed, mainthread, Roots());
      FreeStringOk(heap, marked, currentwhite, fixed, mainthread, Roots(), rootgc, strt, hash, openupval, uvhead, b, i);
      if marked[curr] != OtherWhite(currentwhite) || curr in fixed {
        MainNoString(heap, mainthread, curr);
        KeepOk(heap, marked, currentwhite, fixed, mainthread, Roots(), curr);
        marked := marked[curr := currentwhite];
        return true;
      }
      ChainedUpdate(strt, b, RemoveAt(strt[b], i));
      RemoveAtShorter(strt[b], i);
      strt := strt[b := RemoveAt(strt[b], i)];
      nuse := nuse - 1;
      heap := heap - {curr};
      marked := marked - {curr};
      return false;
    }

    /** sweepwholelist on a bucket of the string table. */
    method SweepBucket(b: nat)
      requires Listed() && Alive() && b < |strt|
      modifies this`heap, this`marked, this`strt, this`nuse
      ensures Listed() && Alive() && Swept(old(heap), old(marked), heap, marked, currentwhite, fixed)
      ensures |strt| == |old(strt)| && strt == old(strt)[b := strt[b]]
          && PrefixCurrent(marked, currentwhite, strt[b], |strt[b]|)
      ensures OnlyThese(old(heap), old(marked), heap, marked, Elems(old(strt)[b]))
    {
      hide Lists, LiveState, Swept, OnlyThese, RootsOf, PrefixCurrent, RemoveAt, NoDup, Chained, WFHeap, Live, AllLive,
          FixedOk;
      ghost var h0, m0, these := heap, marked, Elems(strt[b]);
      SweepStart(heap, marked, currentwhite, fixed, mainthread, Roots(), strt[b]);
      var i := 0;
      while i < |strt[b]|
        invariant |strt| == |old(strt)| && strt == old(strt)[b := strt[b]] && 0 <= i <= |strt[b]|
        invariant Listed() && Alive() && Swept(h0, m0, heap, marked, currentwhite, fixed)
        invariant PrefixCurrent(marked, currentwhite, strt[b], i)
        invariant Elems(strt[b]) <= these && OnlyThese(h0, m0, heap, marked, these)
        decreases |strt[b]| - i
      {
        ghost var h, m, l := heap, marked, strt[b];
        StateWF(heap, marked, currentwhite, fixed, mainthread, Roots());
        BucketDistinct(heap, rootgc, strt, hash, openupval, uvhead, b);
        var kept := SweepOneString(b, i);
        SweepTurn(h0, m0, h, m, heap, marked, currentwhite, fixed, these, l, i, kept);
        if kept { i := i + 1; }
      }
    }

    /** One turn of sweeplist among the open upvalues of a thread. */
    method SweepOneUpval(th: Obj, i: nat) returns (kept: bool)
      requires Listed() && Alive() && th in openupval && i < |openupval[th]|
      modifies this`heap, this`marked, this`openupval, this`uvhead
      ensures Listed() && Alive() && Swept(old(heap), old(marked), heap, marked, currentwhite, fixed)
          && |uvhead| <= |old(uvhead)|
      ensures var curr := old(openupval)[th][i];
              if kept then
                && heap == old(heap) && curr in old(marked) && marked == old(marked)[curr := currentwhite]
                && openupval == old(openupval)
              else
                && heap == old(heap) - {curr} && marked == old(marked) - {curr}
                && openupval == old(openupval)[th := RemoveAt(old(openupval)[th], i)]
    {
      hide Chained, Lists, LiveState, Swept, RootsOf, RemoveAt, NoDup, Without, WFHeap, Live, AllLive, FixedOk;
      var u := openupval[th][i];
      StateWF(heap, marked, currentwhite, fixed, mainthread, Roots());
      FreeUpvalOk(heap, marked, currentwhite, fixed, mainthread, Roots(), rootgc, strt, hash, openupval, uvhead, th, i);
      if marked[u] != OtherWhite(currentwhite) {
        KeepOk(heap, marked, currentwhite, fixed, mainthread, Roots(), u);
        marked := marked[u := currentwhite];
        return true;
      }
      openupval := openupval[th := RemoveAt(openupval[th], i)];
      uvhead := Without(uvhead, u);
      heap := heap - {u};
      marked := marked - {u};
      return false;
    }

    /** sweepwholelist on the open upvalues of a thread. */
    method SweepOpen(th: Obj)
      requires Listed() && Alive() && th in openupval
      modifies this`heap, this`marked, this`openupval, this`uvhead
      ensures Listed() && Alive() && Swept(old(heap), old(marked), heap, marked, currentwhite, fixed)
          && |uvhead| <= |old(uvhead)|
      ensures th in openupval && openupval == old(openupval)[th := openupval[th]]
      ensures PrefixCurrent(marked, currentwhite, openupval[th], |openupval[th]|)
      ensures OnlyThese(old(heap), old(marked), heap, marked, Elems(old(openupval)[th]))
      ensures old(heap).Keys <= heap.Keys + Elems(old(openupval)[th])
    {
      hide Lists, LiveState, Swept, OnlyThese, RootsOf, PrefixCurrent, RemoveAt, NoDup, Chained, WFHeap, Live, AllLive,
          FixedOk;
      ghost var h0, m0, these := heap, marked, Elems(openupval[th]);
      SweepStart(heap, marked, currentwhite, fixed, mainthread, Roots(), openupval[th]);
      var i := 0;
      while i < |openupval[th]|
        invariant th in openupval && openupval == old(openupval)[th := openupval[th]] && 0 <= i <= |openupval[th]|
        invariant Listed() && Alive() && Swept(h0, m0, heap, marked, currentwhite, fixed) && |uvhead| <= |old(uvhead)|
        invariant PrefixCurrent(marked, currentwhite, openupval[th], i)
        invariant Elems(openupval[th]) <= these && OnlyThese(h0, m0, heap, marked, these)
        invariant h0.Keys <= heap.Keys + these
        decreases |openupval[th]| - i
      {
        ghost var h, m, l := heap, marked, openupval[th];
        StateWF(heap, marked, currentwhite, fixed, mainthread, Roots());
        OpenDistinct(heap, rootgc, strt, hash, openupval, uvhead, th);
        var kept := SweepOneUpval(th, i);
        SweepTurn(h0, m0, h, m, heap, marked, currentwhite, fixed, these, l, i, kept);
        if kept { i := i + 1; }
      }
    }

    /** The part of luaF_close and luaC_linkupval that has nothing to do with colours: the
        first open upvalue of a thread gets its own copy of the value and joins the root list. */
    method CloseFirst(th: Obj) returns (u: Obj)
      requires Listed() && Alive() && th in openupval && openupval[th] != []
      modifies this`heap, this`openupval, this`uvhead, this`rootgc, this`sweepgc
      ensures Listed() && Alive() && u == old(openupval)[th][0] && IsOpen(old(heap), u)
      ensures heap == old(heap)[u := Closed(old(heap), u)]
          && Swept(old(heap), marked, heap, marked, currentwhite, fixed)
      ensures openupval == old(openupval)[th := old(openupval)[th][1..]] && |uvhead| == |old(uvhead)| - 1
      ensures rootgc == [u] + old(rootgc) && sweepgc == if old(sweepgc) > 0 then old(sweepgc) + 1 else 0
    {
      hide Chained, Lists, LiveState, Closed, RootsOf, Swept, Without, Values, Edge, WFHeap, Live, AllLive, FixedOk;
      u := openupval[th][0];
      StateWF(heap, marked, currentwhite, fixed, mainthread, Roots());
      CloseOk(heap, marked, currentwhite, fixed, mainthread, Roots(), rootgc, strt, hash, openupval, uvhead, th);
      ClosedSwept(heap, marked, u, currentwhite, fixed);
      heap := heap[u := Closed(heap, u)];
      openupval := openupval[th := openupval[th][1..]];
      uvhead := Without(uvhead, u);
      rootgc := [u] + rootgc;
      if sweepgc > 0 { sweepgc := sweepgc + 1; }
    }

    /** One turn of luaF_close during the sweep: the upvalue has been swept already. */
    method CloseSwept(th: Obj)
      requires Listed() && Alive() && th in openupval && openupval[th] != []
      requires RootSwept(marked, currentwhite, rootgc, openupval, sweepgc)
      requires PrefixCurrent(marked, currentwhite, openupval[th], |openupval[th]|)
      modifies this`heap, this`openupval, this`uvhead, this`rootgc, this`sweepgc
      ensures Listed() && Alive() && Swept(old(heap), marked, heap, marked, currentwhite, fixed)
      ensures th in openupval && openupval[th] == old(openupval)[th][1..] && |uvhead| == |old(uvhead)| - 1
      ensures rootgc == [old(openupval)[th][0]] + old(rootgc) && sweepgc == if old(sweepgc) > 0 then old(sweepgc) + 1
          else 0
      ensures RootSwept(marked, currentwhite, rootgc, openupval, sweepgc)
      ensures PrefixCurrent(marked, currentwhite, openupval[th], |openupval[th]|)
    {
      hide Chained, Lists, LiveState, Swept, RootSwept, RootsOf, Closed, PrefixCurrent, WFHeap, Live, AllLive, FixedOk;
      StateWF(heap, marked, currentwhite, fixed, mainthread, Roots());
      OpenNoThread(heap, rootgc, strt, hash, openupval, uvhead, th);
      FirstCurrent(marked, currentwhite, openupval[th]);
      LinkedPrefix(marked, currentwhite, rootgc, openupval, sweepgc, th, openupval[th][0]);
      PrefixTail(marked, currentwhite, openupval[th]);
      var _ := CloseFirst(th);
    }

    /** luaE_freethread's luaF_close: all open upvalues of a thread that is being freed. */
    method CloseThread(th: Obj, ghost j: nat) returns (ghost j': nat)
      requires Listed() && Alive() && th in openupval && j < |rootgc| && rootgc[j] == th && sweepgc <= j
      requires RootSwept(marked, currentwhite, rootgc, openupval, sweepgc)
      requires PrefixCurrent(marked, currentwhite, openupval[th], |openupval[th]|)
      modifies this`heap, this`openupval, this`uvhead, this`rootgc, this`sweepgc
      ensures Listed() && Alive() && Swept(old(heap), marked, heap, marked, currentwhite, fixed)
      ensures th in openupval && openupval[th] == [] && j' < |rootgc| && rootgc[j'] == th && sweepgc <= j'
      ensures RootSwept(marked, currentwhite, rootgc, openupval, sweepgc)
      ensures |uvhead| + |rootgc| - sweepgc <= |old(uvhead)| + |old(rootgc)| - old(sweepgc)
    {
      hide Chained, Lists, LiveState, Swept, RootSwept, RootsOf, PrefixCurrent, WFHeap, Live, AllLive, FixedOk;
      ghost var h0 := heap;
      StateWF(heap, marked, currentwhite, fixed, mainthread, Roots());
      SweptRefl(heap, marked, currentwhite, fixed);
      j' := j;
      while openupval[th] != []
        invariant Listed() && Alive() && Swept(h0, marked, heap, marked, currentwhite, fixed)
        invariant th in openupval && PrefixCurrent(marked, currentwhite, openupval[th], |openupval[th]|)
        invariant j' < |rootgc| && rootgc[j'] == th && sweepgc <= j'
        invariant RootSwept(marked, currentwhite, rootgc, openupval, sweepgc)
        invariant |uvhead| + |rootgc| - sweepgc <= |old(uvhead)| + |old(rootgc)| - old(sweepgc)
        decreases |openupval[th]|
      {
        ghost var h := heap;
        CloseSwept(th);
        SweptTrans(h0, marked, h, marked, heap, marked, currentwhite, fixed);
        j' := j' + 1;
      }
    }

    /** The open upvalues of the object at the sweep position, if it is a thread. */
    method SweepUpvals(curr: Obj)
      requires Listed() && Alive() && sweepgc < |rootgc| && rootgc[sweepgc] == curr && curr in heap
          && (heap[curr].tt == THREAD <==> curr in openupval)
      requires RootSwept(marked, currentwhite, rootgc, openupval, sweepgc) && forall i :: 0 <= i < sweepgc ==>
          rootgc[i] != curr
      modifies this`heap, this`marked, this`openupval, this`uvhead
      ensures Listed() && Alive() && Swept(old(heap), old(marked), heap, marked, currentwhite, fixed)
          && |uvhead| <= |old(uvhead)|
      ensures RootSwept(marked, currentwhite, rootgc, openupval, sweepgc)
      ensures curr in openupval ==> PrefixCurrent(marked, currentwhite, openupval[curr], |openupval[curr]|)
    {
      hide Chained, Lists, LiveState, Swept, RootSwept, RootsOf, OnlyThese, PrefixCurrent, WFHeap, Live, AllLive,
          FixedOk;
      ghost var h0, m0, ou := heap, marked, openupval;
      StateWF(heap, marked, currentwhite, fixed, mainthread, Roots());
      SweptRefl(heap, marked, currentwhite, fixed);
      if heap[curr].tt == THREAD {
        SweepOpen(curr);
        RootStays(h0, m0, heap, marked, currentwhite, fixed, rootgc, ou, openupval, sweepgc);
      }
    }

    /** makewhite on the object at the sweep position. */
    method KeepObject(curr: Obj, ghost h0: Heap, ghost m0: Marks)
      requires Listed() && Alive() && sweepgc < |rootgc| && rootgc[sweepgc] == curr && curr in marked && curr in heap
          && IsWhite(currentwhite)
      requires RootSwept(marked, currentwhite, rootgc, openupval, sweepgc)
          && Swept(h0, m0, heap, marked, currentwhite, fixed)
      requires marked[curr] != OtherWhite(currentwhite) || curr in fixed
      requires curr in openupval ==> PrefixCurrent(marked, currentwhite, openupval[curr], |openupval[curr]|)
      modifies this`marked, this`sweepgc
      ensures Listed() && Alive() && Swept(h0, m0, heap, marked, currentwhite, fixed)
      ensures RootSwept(marked, currentwhite, rootgc, openupval, sweepgc) && sweepgc == old(sweepgc) + 1
    {
      hide Chained, Lists, LiveState, Swept, RootSwept, RootsOf, PrefixCurrent, WFHeap, Live, AllLive, FixedOk;
      ghost var m1 := marked;
      RootKept(heap, marked, currentwhite, fixed, rootgc, openupval, sweepgc);
      MainLive(heap, marked, currentwhite, fixed, mainthread, Roots(), curr);
      KeepOk(heap, marked, currentwhite, fixed, mainthread, Roots(), curr);
      marked := marked[curr := currentwhite];
      SweptTrans(h0, m0, heap, m1, heap, marked, currentwhite, fixed);
      sweepgc := sweepgc + 1;
    }

    /** One turn of sweeplist in the root list. */
    method SweepOneObject()
      requires Listed() && Alive() && sweepgc < |rootgc|
      requires RootSwept(marked, currentwhite, rootgc, openupval, sweepgc)
      modifies this`heap, this`marked, this`openupval, this`uvhead, this`rootgc, this`sweepgc
      ensures Listed() && Alive() && Swept(old(heap), old(marked), heap, marked, currentwhite, fixed)
      ensures RootSwept(marked, currentwhite, rootgc, openupval, sweepgc)
      ensures |uvhead| + |rootgc| - sweepgc < |old(uvhead)| + |old(rootgc)| - old(sweepgc)
    {
      hide Chained, Lists, LiveState, Swept, RootSwept, RootsOf, PrefixCurrent, NoDup, WFHeap, Live, AllLive, FixedOk;
      ghost var h0, m0 := heap, marked;
      var curr := rootgc[sweepgc];
      RootFacts(heap, rootgc, strt, hash, openupval, uvhead, sweepgc);
      SweepUpvals(curr);
      RootFacts(heap, rootgc, strt, hash, openupval, uvhead, sweepgc);
      StateWF(heap, marked, currentwhite, fixed, mainthread, Roots());
      if marked[curr] != OtherWhite(currentwhite) || curr in fixed {
        KeepObject(curr, h0, m0);
      } else {
        FreeObject(curr, h0, m0);
      }
    }

    /** freeobj on the object at the sweep position; a thread closes its upvalues first. */
    method FreeObject(curr: Obj, ghost h0: Heap, ghost m0: Marks)
      requires Listed() && Alive() && sweepgc < |rootgc| && rootgc[sweepgc] == curr && curr in marked && curr in heap
          && IsWhite(currentwhite)
      requires RootSwept(marked, currentwhite, rootgc, openupval, sweepgc)
          && Swept(h0, m0, heap, marked, currentwhite, fixed)
      requires marked[curr] == OtherWhite(currentwhite) && curr !in fixed
      requires heap[curr].tt == THREAD <==> curr in openupval
      requires curr in openupval ==> PrefixCurrent(marked, currentwhite, openupval[curr], |openupval[curr]|)
      modifies this`heap, this`marked, this`openupval, this`uvhead, this`rootgc, this`sweepgc
      ensures Listed() && Alive() && Swept(h0, m0, heap, marked, currentwhite, fixed)
      ensures RootSwept(marked, currentwhite, rootgc, openupval, sweepgc)
      ensures |uvhead| + |rootgc| - sweepgc < |old(uvhead)| + |old(rootgc)| - old(sweepgc)
    {
      hide Chained, Lists, LiveState, Swept, RootSwept, RootsOf, OnlyThese, PrefixCurrent, RemoveAt, NoDup, Without,
          OtherWhite;
      ghost var h1, j := heap, sweepgc;
      if heap[curr].tt == THREAD {
        j := CloseThread(curr, j);
        SweptTrans(h0, m0, h1, marked, heap, marked, currentwhite, fixed);
      }
      DropRoot(curr, j, h0, m0);
    }

    /** freeobj on an object of the root list. */
    method DropRoot(curr: Obj, ghost j: nat, ghost h0: Heap, ghost m0: Marks)
      requires Listed() && Alive() && sweepgc <= j < |rootgc| && rootgc[j] == curr && curr in marked
      requires RootSwept(marked, currentwhite, rootgc, openupval, sweepgc)
      requires marked[curr] == OtherWhite(currentwhite) && curr !in fixed
          && (curr in openupval ==> openupval[curr] == [])
      requires Swept(h0, m0, heap, marked, currentwhite, fixed)
      modifies this`heap, this`marked, this`openupval, this`rootgc
      ensures Listed() && Alive() && Swept(h0, m0, heap, marked, currentwhite, fixed)
      ensures RootSwept(marked, currentwhite, rootgc, openupval, sweepgc) && |rootgc| == |old(rootgc)| - 1
    {
      hide Chained, Lists, LiveState, Swept, RootSwept, RootsOf, NoDup, Without, WFHeap, Live, AllLive, FixedOk;
      ghost var h1, m1 := heap, marked;
      StateWF(heap, marked, currentwhite, fixed, mainthread, Roots());
      RootFacts(heap, rootgc, strt, hash, openupval, uvhead, j);
      FreeRootOk(heap, marked, currentwhite, fixed, mainthread, Roots(), rootgc, strt, hash, openupval, uvhead, curr);
      FreedPrefix(marked, currentwhite, rootgc, openupval, sweepgc, curr, j);
      rootgc := Without(rootgc, curr);
      openupval := openupval - {curr};
      heap := heap - {curr};
      marked := marked - {curr};
      SweptTrans(h0, m0, h1, m1, heap, marked, currentwhite, fixed);
    }

    /** sweeplist on (a part of) the root list. */
    method SweepRoot(count: nat)
      requires Listed() && Alive() && RootSwept(marked, currentwhite, rootgc, openupval, sweepgc) && count > 0
      modifies this`heap, this`marked, this`openupval, this`uvhead, this`rootgc, this`sweepgc
      ensures Listed() && Alive() && Swept(old(heap), old(marked), heap, marked, currentwhite, fixed)
      ensures RootSwept(marked, currentwhite, rootgc, openupval, sweepgc)
      ensures sweepgc == |rootgc| || |uvhead| + |rootgc| - sweepgc < |old(uvhead)| + |old(rootgc)| - old(sweepgc)
    {
      hide Chained, Lists, LiveState, Swept, RootSwept, RootsOf, WFHeap, Live, AllLive, FixedOk;
      ghost var h0, m0 := heap, marked;
      StateWF(heap, marked, currentwhite, fixed, mainthread, Roots());
      SweptRefl(heap, marked, currentwhite, fixed);
      SweptBound(marked, currentwhite, rootgc, openupval, sweepgc);
      var n := 0;
      while sweepgc < |rootgc| && n < count
        invariant Listed() && Alive() && Swept(h0, m0, heap, marked, currentwhite, fixed)
        invariant RootSwept(marked, currentwhite, rootgc, openupval, sweepgc) && sweepgc <= |rootgc| && n <= count
        invariant |uvhead| + |rootgc| - sweepgc + n <= |old(uvhead)| + |old(rootgc)| - old(sweepgc)
        decreases count - n
      {
        ghost var h, m := heap, marked;
        StateWF(heap, marked, currentwhite, fixed, mainthread, Roots());
        SweepOneObject();
        SweptTrans(h0, m0, h, m, heap, marked, currentwhite, fixed);
        SweptBound(marked, currentwhite, rootgc, openupval, sweepgc);
        n := n + 1;
      }
    }

    // ----- the string table -----

    /** luaS_resize moves one string to the head of its new chain. */
    method Rechain(newhash: seq<seq<Obj>>, o: Obj, ghost s: seq<Obj>) returns (t: seq<seq<Obj>>)
      requires Rehashed(heap, newhash, hash, s) && o !in s && o in heap && heap[o].body.Bytes?
      ensures Rehashed(heap, t, hash, s + [o]) && |t| == |newhash|
    {
      RehashOne(heap, newhash, hash, s, o);
      hide Rehashed;
      var h1 := Bucket(hash, |newhash|, heap[o].body.s);
      t := newhash[h1 := [o] + newhash[h1]];
    }

    /** luaS_resize: every string moves to the chain of its hash in a table of the new size. */
    method Resize(newsize: nat)
      requires Listed() && newsize > 0
      modifies this`strt
      ensures Listed() && if gcstate == SweepString then strt == old(strt) else |strt| == newsize
    {
      hide Rehashed, Taken, RootList, OpenLists, StringTable, Chained, EmptyTable;
      if gcstate == SweepString { return; }
      var tb := strt;
      var newhash := EmptyTable(newsize);
      ghost var s := [];
      RehashStart(heap, tb, hash, newsize);
      var i := 0;
      while i < |tb|
        invariant 0 <= i <= |tb| && |newhash| == newsize
        invariant Rehashed(heap, newhash, hash, s) && Taken(tb, s, i, 0)
      {
        var j := 0;
        while j < |tb[i]|
          invariant 0 <= j <= |tb[i]| && |newhash| == newsize
          invariant Rehashed(heap, newhash, hash, s) && Taken(tb, s, i, j)
        {
          TakeOne(heap, tb, hash, s, i, j);
          newhash := Rechain(newhash, tb[i][j], s);
          s := s + [tb[i][j]];
          j := j + 1;
        }
        NextBucket(tb, s, i);
        i := i + 1;
      }
      RehashDone(heap, tb, hash, newhash, s);
      strt := newhash;
    }

    /** checkSizes: a string table that is too big shrinks. */
    method CheckSizes()
      requires Listed()
      modifies this`strt
      ensures Listed() && (gcstate == SweepString ==> strt == old(strt))
      ensures |strt| == if gcstate != SweepString && nuse < |old(strt)| / 4 && |old(strt)| > 2 * MINSTRTABSIZE
          then |old(strt)| / 2 else |old(strt)|
    {
      hide Lists, Chained;
      if nuse < |strt| / 4 && |strt| > 2 * MINSTRTABSIZE {
        Resize(|strt| / 2);
      }
    }

    // ----- the state machine -----

    /** singlestep in the pause. */
    method StartCycle(ghost s: iset<Obj>)
      requires Valid() && (gcstate == Pause || gcstate == Finalize)
      requires ClosedSet(heap, s) && forall r :: r in Roots() ==> r in s
      modifies this`marked, this`gray, this`grayagain, this`gcstate
      ensures Valid() && gcstate == Propagate && MarkedIn(marked, s)
    {
      hide Chained, Lists, MarkState, Live, AllLive, ClosedSet, MarkedIn, FixedOk, AllMarked, RootsOf, WFHeap;
      StateWF(heap, marked, currentwhite, fixed, mainthread, Roots());
      MarkRoot(s);
      KnownMarks({}, {});
      WeakerPending();
      AfterMarking(old(marked));
    }

    /** Marking kills nobody. */
    lemma AfterMarking(m: Marks)
      requires LiveState(heap, m, currentwhite, fixed, mainthread, Roots()) && marked.Keys == heap.Keys
      requires exists pend: set<Obj> :: Marking(pend, {})
      ensures Alive()
    {
      var pend: set<Obj> :| Marking(pend, {});
      LiveNoDangling(heap, marked, currentwhite);
    }

    lemma WeakerPending()
      requires Marking({}, {})
      ensures Marking(Unfinished(), {})
    {
      MorePending(heap, marked, currentwhite, gray, grayagain, {}, Unfinished());
    }

    /** singlestep while marking: one gray object is traversed, or the mark phase ends. */
    method StepPropagate(ghost s: iset<Obj>)
      requires Valid() && gcstate == Propagate && ClosedSet(heap, s) && MarkedIn(marked, s) && forall r ::
          r in Roots() ==> r in s
      modifies this`marked, this`gray, this`grayagain, this`currentwhite, this`sweepstrgc, this`sweepgc, this`gcstate
      ensures Valid()
      ensures old(gray) != [] ==>
        && gcstate == Propagate && MarkedIn(marked, s) && currentwhite == old(currentwhite)
        && (Whites(marked) < Whites(old(marked)) || (Whites(marked) == Whites(old(marked)) && |gray| < |old(gray)|))
      ensures old(gray) == [] ==>
        && gcstate == SweepString && currentwhite == OtherWhite(old(currentwhite))
        && forall o :: o in marked && !Dead(marked[o], currentwhite) ==> o in s
    {
      hide Chained, Lists, MarkState, Live, AllLive, ClosedSet, MarkedIn, FixedOk, AllMarked, RootsOf, Whites, Onward,
          WFHeap;
      StateWF(heap, marked, currentwhite, fixed, mainthread, Roots());
      ghost var m0 := marked;
      if gray != [] {
        ghost var pend := Unfinished();
        PropagateMark(pend, s);
        OnwardMarked(m0, marked, {mainthread} + RefsOf([registry]));
        MorePending(heap, marked, currentwhite, gray, grayagain, pend, Unfinished());
        AfterMarking(m0);
      } else {
        OpenUpvals(heap, rootgc, strt, hash, openupval, uvhead);
        Atomic(s);
        FirstBuckets(heap, marked, currentwhite, rootgc, strt, hash, openupval, uvhead);
      }
    }

    /** singlestep while sweeping the string table. */
    method StepSweepString()
      requires Valid() && gcstate == SweepString
      modifies this`heap, this`marked, this`strt, this`nuse, this`sweepstrgc, this`gcstate
      ensures Valid() && Swept(old(heap), old(marked), heap, marked, currentwhite, fixed)
      ensures (gcstate == SweepString && |strt| - sweepstrgc < |old(strt)| - old(sweepstrgc)) || gcstate == Sweep
    {
      hide Lists, LiveState, Swept, StringsSwept, StringsCurrent, RootsOf, PrefixCurrent, OnlyThese, OpenNotBlack,
          Chained, WFHeap, Live, AllLive, FixedOk;
      ghost var h, m, st, b := heap, marked, strt, sweepstrgc;
      StateWF(heap, marked, currentwhite, fixed, mainthread, Roots());
      SweepBucket(sweepstrgc);
      SweptNotBlack(h, m, heap, marked, currentwhite, fixed);
      OneMoreBucket(h, m, heap, marked, currentwhite, fixed, st, strt, b);
      sweepstrgc := sweepstrgc + 1;
      if sweepstrgc >= |strt| {
        LastBucket(heap, marked, currentwhite, rootgc, strt, hash, openupval, uvhead);
        gcstate := Sweep;
      }
    }

    /** singlestep while sweeping the root list. */
    method StepSweep()
      requires Valid() && gcstate == Sweep
      modifies this`heap, this`marked, this`strt, this`openupval, this`uvhead, this`rootgc, this`sweepgc, this`gcstate
      ensures Valid() && Swept(old(heap), old(marked), heap, marked, currentwhite, fixed)
      ensures (gcstate == Sweep && |uvhead| + |rootgc| - sweepgc < |old(uvhead)| + |old(rootgc)| - old(sweepgc))
          || gcstate == Finalize
    {
      hide Lists, LiveState, Swept, StringsCurrent, RootSwept, RootsOf, AllCurrent, OpenNotBlack, Chained, WFHeap,
          Live, AllLive, FixedOk;
      ghost var h, m := heap, marked;
      StateWF(heap, marked, currentwhite, fixed, mainthread, Roots());
      SweepRoot(GCSWEEPMAX);
      SweptCurrent(h, m, heap, marked, currentwhite, fixed);
      SweptNotBlack(h, m, heap, marked, currentwhite, fixed);
      if sweepgc == |rootgc| {
        EverythingSwept(heap, marked, currentwhite, fixed, mainthread, Roots(), rootgc, strt, hash, openupval, uvhead);
        CheckSizes();
        gcstate := Finalize;
      }
    }

    /** singlestep at the end of a cycle. */
    method EndCycle()
      requires Valid() && gcstate == Finalize
      modifies this`gcstate
      ensures Valid() && gcstate == Pause
    {
      gcstate := Pause;
    }

    /** singlestep: every step takes the phase it is in one step further, and only the sweep
        phases free objects, dead ones. Whatever the roots reach is still there, with the same
        contents. */
    method SingleStep()
      requires Valid()
      modifies this`heap, this`marked, this`gray, this`grayagain, this`currentwhite, this`gcstate,
               this`strt, this`nuse, this`sweepstrgc, this`openupval, this`uvhead, this`rootgc, this`sweepgc
      ensures Valid()
      ensures old(gcstate) == Pause ==> gcstate == Propagate
      ensures old(gcstate) == Propagate && old(gray) != [] ==>
        && gcstate == Propagate && currentwhite == old(currentwhite)
        && (Whites(marked) < Whites(old(marked)) || (Whites(marked) == Whites(old(marked)) && |gray| < |old(gray)|))
      ensures old(gcstate) == Propagate && old(gray) == [] ==>
        gcstate == SweepString && currentwhite == OtherWhite(old(currentwhite))
      ensures old(gcstate) == SweepString ==>
        (gcstate == SweepString && |strt| - sweepstrgc < |old(strt)| - old(sweepstrgc)) || gcstate == Sweep
      ensures old(gcstate) == Sweep ==>
        || (gcstate == Sweep && |uvhead| + |rootgc| - sweepgc < |old(uvhead)| + |old(rootgc)| - old(sweepgc))
        || gcstate == Finalize
      ensures old(gcstate) == Finalize ==> gcstate == Pause
      ensures if old(gcstate) == SweepString || old(gcstate) == Sweep
              then currentwhite == old(currentwhite) && Swept(old(heap), old(marked), heap, marked, currentwhite, fixed)
              else heap == old(heap)
      ensures heap.Keys <= old(heap).Keys
      ensures forall o :: Reach(old(heap), Roots(), o) ==>
          o in old(heap) && o in heap && heap[o].tt == old(heap)[o].tt && Values(heap, o) == Values(old(heap), o)
    {
      hide Chained, Lists, LiveState, Swept, InPhase, RootsOf, Reach, WFHeap, Live, AllLive, FixedOk;
      ghost var h, m, cw := heap, marked, currentwhite;
      ghost var all := Everything();
      StateWF(heap, marked, currentwhite, fixed, mainthread, Roots());
      ReachHere(h, m, cw, Roots());
      EverythingClosed(heap, marked);
      match gcstate {
        case Pause => StartCycle(all);
        case Propagate => StepPropagate(all);
        case SweepString =>
          StepSweepString();
          ReachKept(h, m, heap, marked, cw, fixed, Roots());
          SweptKeys(h, m, heap, marked, cw, fixed);
        case Sweep =>
          StepSweep();
          ReachKept(h, m, heap, marked, cw, fixed, Roots());
          SweptKeys(h, m, heap, marked, cw, fixed);
        case Finalize => EndCycle();
      }
    }

    /** The sweep marks are reset so that every object is swept, and returned to white. */
    method AbandonMark()
      requires Valid() && (gcstate == Pause || gcstate == Propagate)
      modifies this`gray, this`grayagain, this`gcstate, this`sweepstrgc, this`sweepgc
      ensures Valid() && gcstate == SweepString && NoneDead(marked, currentwhite)
    {
      hide Chained, Lists, LiveState, RootsOf, MarkState, StringsSwept, AllCurrent, NoneDead, OpenNotBlack;
      NotDead();
      FirstBuckets(heap, marked, currentwhite, rootgc, strt, hash, openupval, uvhead);
      sweepstrgc := 0;
      sweepgc := 0;
      gray := [];
      grayagain := [];
      gcstate := SweepString;
    }

    lemma Known()
      requires Valid()
      ensures WFHeap(heap) && marked.Keys == heap.Keys && IsWhite(currentwhite)
      ensures Live(heap, marked, currentwhite) && AllLive(Roots(), marked, currentwhite)
    {
      hide Listed, InPhase, WFHeap, Live, AllLive, RootsOf;
    }

    /** A pending sweep phase is finished. */
    method CompleteSweep()
      requires Valid() && (gcstate == SweepString || gcstate == Sweep || gcstate == Finalize)
      modifies this`heap, this`marked, this`gcstate, this`strt, this`nuse, this`sweepstrgc, this`openupval,
          this`uvhead, this`rootgc, this`sweepgc
      ensures Valid() && gcstate == Finalize && Swept(old(heap), old(marked), heap, marked, currentwhite, fixed)
    {
      hide Chained, Lists, LiveState, Swept, RootsOf, InPhase, Listed, GlobalState.Valid;
      ghost var h0, m0 := heap, marked;
      Known();
      SweptRefl(heap, marked, currentwhite, fixed);
      while gcstate == SweepString
        invariant Valid() && (gcstate == SweepString || gcstate == Sweep || gcstate == Finalize)
        invariant Swept(h0, m0, heap, marked, currentwhite, fixed)
        decreases gcstate == SweepString, |strt| - sweepstrgc
      {
        ghost var h, m := heap, marked;
        Known();
        SweepBounds();
        StepSweepString();
        SweptTrans(h0, m0, h, m, heap, marked, currentwhite, fixed);
      }
      while gcstate == Sweep
        invariant Valid() && (gcstate == Sweep || gcstate == Finalize)
        invariant Swept(h0, m0, heap, marked, currentwhite, fixed)
        decreases gcstate == Sweep, |uvhead| + |rootgc| - sweepgc
      {
        ghost var h, m := heap, marked;
        Known();
        SweepBounds();
        StepSweep();
        SweptTrans(h0, m0, h, m, heap, marked, currentwhite, fixed);
      }
    }

    /** The first part of luaC_fullgc: a mark phase is abandoned, a pending sweep is finished. */
    method FinishSweep()
      requires Valid()
      modifies this`heap, this`marked, this`gray, this`grayagain, this`gcstate,
               this`strt, this`nuse, this`sweepstrgc, this`openupval, this`uvhead, this`rootgc, this`sweepgc
      ensures Valid() && gcstate == Finalize && Swept(old(heap), old(marked), heap, marked, currentwhite, fixed)
      ensures old(gcstate) == Pause || old(gcstate) == Propagate ==> heap.Keys == old(heap).Keys
    {
      hide Chained, Lists, LiveState, Swept, RootsOf, InPhase, NoneDead, GlobalState.Valid;
      ghost var h0, m0 := heap, marked;
      if gcstate == Pause || gcstate == Propagate {
        AbandonMark();
        CompleteSweep();
        NothingFreed(h0, m0, heap, marked, currentwhite, fixed);
      } else {
        CompleteSweep();
      }
    }

    lemma NotDead()
      requires Valid() && (gcstate == Pause || gcstate == Propagate)
      ensures NoneDead(marked, currentwhite) && OpenNotBlack(heap, marked)
    {
    }

    lemma SweepBounds()
      requires Valid() && (gcstate == SweepString || gcstate == Sweep)
      ensures gcstate == SweepString ==> sweepstrgc < |strt|
      ensures gcstate == Sweep ==> sweepgc <= |rootgc|
    {
    }

    /** A whole mark phase, ended by atomic. */
    method CompleteMark(ghost s: iset<Obj>)
      requires Valid() && gcstate == Finalize && ClosedSet(heap, s) && forall r :: r in Roots() ==> r in s
      modifies this`marked, this`gray, this`grayagain, this`currentwhite, this`sweepstrgc, this`sweepgc, this`gcstate
      ensures Valid() && gcstate == SweepString
      ensures forall o :: o in marked && !Dead(marked[o], currentwhite) ==> o in s
    {
      hide Chained, Lists, LiveState, ClosedSet, MarkedIn, InPhase, RootsOf, Whites;
      StartCycle(s);
      while gray != []
        invariant Valid() && gcstate == Propagate && MarkedIn(marked, s)
        decreases Whites(marked), |gray|
      {
        StepPropagate(s);
      }
      StepPropagate(s);
    }

    /** luaC_fullgc: exactly the reachable and the fixed objects survive. An object that a
        pending sweep was going to free is unreachable, so it goes in any case. */
    method FullGc()
      requires Valid()
      modifies this`heap, this`marked, this`gray, this`grayagain, this`currentwhite, this`gcstate,
               this`strt, this`nuse, this`sweepstrgc, this`openupval, this`uvhead, this`rootgc, this`sweepgc
      ensures Valid() && gcstate == Pause
      ensures Collected(old(heap), heap, fixed, Roots())
    {
      hide Lists, LiveState, Swept, RootsOf, InPhase, Reach, Dead, Collected, AllCurrent, Chained, GlobalState.Valid;
      ghost var h0, m0, w0 := heap, marked, currentwhite;
      Known();
      FinishSweep();
      ghost var h1, m1, s := heap, marked, ReachSet(heap, Roots());
      ReachSetClosed(heap, Roots());
      CompleteMark(s);
      ghost var m2 := marked;
      Known();
      CompleteSweep();
      DoneSweeping();
      Survivors(h0, m0, w0, h1, m1, m2, currentwhite, heap, marked, fixed, Roots());
      EndCycle();
    }

    lemma DoneSweeping()
      requires Valid() && gcstate == Finalize
      ensures AllCurrent(marked, currentwhite) && IsWhite(currentwhite)
    {
    }
  }

  lemma RemoveAtShorter(l: seq<Obj>, i: nat)
    requires i < |l|
    ensures |RemoveAt(l, i)| == |l| - 1
  {
  }

  lemma ReferencesIn(h: Heap, s: iset<Obj>, o: Obj)
    requires ClosedSet(h, s) && o in s && o in h && NoDangling(h)
    ensures forall p :: Ref(p) in Values(h, o) ==> p in h && p in s
  {
    forall p | Ref(p) in Values(h, o) ensures p in h && p in s {
      assert Edge(h, o, p);
    }
  }

  lemma StaysMarked(m: Marks, m': Marks, o: Obj)
    requires Grows(m, m') && o in m && !IsWhite(m[o])
    ensures o in m' && m'[o] == m[o]
  {
  }

  /** gray2black at the end of marking. */
  lemma Blacken(m: Marks, m': Marks, o: Obj, s: iset<Obj>)
    requires Grows(m, m') && Within(m, m', s) && o in m && IsWhite(m[o]) && o in m' && !IsWhite(m'[o])
    ensures Grows(m, m'[o := Black]) && Within(m, m'[o := Black], s) && Whites(m'[o := Black]) == Whites(m')
  {
    assert forall p :: p in m' ==> IsWhite(m'[o := Black][p]) == IsWhite(m'[p]);
  }

  lemma BlackIn(m: Marks, o: Obj, s: iset<Obj>)
    requires MarkedIn(m, s) && o in s
    ensures MarkedIn(m[o := Black], s)
  {
  }

  lemma AddElem(o: Obj, l: seq<Obj>)
    ensures Elems(l) <= Elems([o] + l)
  {
  }

  lemma OnwardKeys(m: Marks, m': Marks)
    requires Onward(m, m')
    ensures m'.Keys == m.Keys
  {
  }

  lemma GrayIn(m: Marks, o: Obj, s: iset<Obj>)
    requires MarkedIn(m, s) && o in m && m[o].Gray?
    ensures o in s
  {
  }

  /** An open upvalue that is not gray is white. */
  lemma NotGray(h: Heap, m: Marks, cw: Colour, gray: seq<Obj>, grayagain: seq<Obj>, pend: set<Obj>, u: Obj)
    requires MarkState(h, m, cw, gray, grayagain, pend + {u}, {}) && IsOpen(h, u) && !m[u].Gray?
    ensures MarkState(h, m, cw, gray, grayagain, pend, {})
  {
    assert IsWhite(m[u]);
    forall p, q | p in m && !IsWhite(m[p]) && Edge(h, p, q) && q in m && IsWhite(m[q]) ensures p in pend + Elems(gray) {
      assert p in pend + {u} + Elems(gray);
    }
  }

  lemma BaseMarked(m: Marks, mainthread: Obj, registry: Value, vs: seq<Value>)
    requires |vs| >= 2 && vs[0] == Ref(mainthread) && vs[1] == registry
    requires forall p :: Ref(p) in vs ==> p in m && !IsWhite(m[p])
    ensures AllMarked({mainthread} + RefsOf([registry]), m)
  {
    forall r | r in {mainthread} + RefsOf([registry]) ensures r in m && !IsWhite(m[r]) {
      assert vs[0] == Ref(r) || vs[1] == Ref(r);
    }
  }

  /** After the flip only marked objects are not dead. */
  lemma AliveIn(m: Marks, cw: Colour, s: iset<Obj>)
    requires MarkedIn(m, s) && forall o :: o in m ==> (Dead(m[o], OtherWhite(cw)) <==> IsWhite(m[o]))
    ensures forall o :: o in m && !Dead(m[o], OtherWhite(cw)) ==> o in s
  {
  }

  lemma MainIsRoot(mainthread: Obj, running: Obj, registry: Value, mt: seq<Value>)
    ensures mainthread in RootsOf(mainthread, running, registry, mt)
        && running in RootsOf(mainthread, running, registry, mt)
  {
  }

  lemma MainNoString(h: Heap, mainthread: Obj, o: Obj)
    requires WFHeap(h) && mainthread in h && h[mainthread].tt == THREAD && o in h && h[o].body.Bytes?
    ensures o != mainthread
  {
    assert WFObject(h, o);
  }


  lemma RootFacts(h: Heap, rootgc: seq<Obj>, strt: seq<seq<Obj>>, hash: Text -> nat, ou: map<Obj, seq<Obj>>,
      uv: seq<Obj>, k: nat)
    requires Lists(h, rootgc, strt, hash, ou, uv) && k < |rootgc|
    ensures rootgc[k] in h && h[rootgc[k]].tt != STRING
    ensures NoDup(rootgc) && (h[rootgc[k]].tt == THREAD <==> rootgc[k] in ou)
    ensures forall i :: 0 <= i < k ==> rootgc[i] != rootgc[k]
  {
    assert rootgc[k] in rootgc;
  }

  lemma OpenNoThread(h: Heap, rootgc: seq<Obj>, strt: seq<seq<Obj>>, hash: Text -> nat, ou: map<Obj, seq<Obj>>,
      uv: seq<Obj>, th: Obj)
    requires Lists(h, rootgc, strt, hash, ou, uv) && WFHeap(h) && th in ou && ou[th] != []
    ensures IsOpen(h, ou[th][0]) && ou[th][0] !in ou
  {
    assert Descending(h, th, ou[th]);
    assert WFObject(h, ou[th][0]);
  }

  /** The main thread is a root, so it is never found dead. */
  lemma MainLive(h: Heap, m: Marks, cw: Colour, fixed: set<Obj>, mainthread: Obj, roots: set<Obj>, o: Obj)
    requires LiveState(h, m, cw, fixed, mainthread, roots) && o in h && IsWhite(cw)
    ensures m[o] != OtherWhite(cw) || o != mainthread
  {
  }

  lemma FirstCurrent(m: Marks, cw: Colour, l: seq<Obj>)
    requires PrefixCurrent(m, cw, l, |l|) && l != []
    ensures l[0] in m && m[l[0]] == cw
  {
  }

  lemma PrefixTail(m: Marks, cw: Colour, l: seq<Obj>)
    requires PrefixCurrent(m, cw, l, |l|) && l != []
    ensures PrefixCurrent(m, cw, l[1..], |l[1..]|)
  {
  }

  lemma SweptBound(m: Marks, cw: Colour, rootgc: seq<Obj>, ou: map<Obj, seq<Obj>>, k: nat)
    requires RootSwept(m, cw, rootgc, ou, k)
    ensures k <= |rootgc|
  {
  }

  lemma OnwardMarked(m: Marks, m': Marks, os: set<Obj>)
    requires Onward(m, m') && AllMarked(os, m)
    ensures AllMarked(os, m')
  {
  }

  lemma OpenUpvals(h: Heap, rootgc: seq<Obj>, strt: seq<seq<Obj>>, hash: Text -> nat, ou: map<Obj, seq<Obj>>,
      uv: seq<Obj>)
    requires Lists(h, rootgc, strt, hash, ou, uv)
    ensures forall u :: u in uv ==> IsOpen(h, u)
  {
  }

  lemma FirstBuckets(h: Heap, m: Marks, cw: Colour, rootgc: seq<Obj>, strt: seq<seq<Obj>>, hash: Text -> nat,
      ou: map<Obj, seq<Obj>>, uv: seq<Obj>)
    requires Lists(h, rootgc, strt, hash, ou, uv)
    ensures StringsSwept(m, cw, strt, 0) && 0 < |strt|
  {
  }

  lemma LastBucket(h: Heap, m: Marks, cw: Colour, rootgc: seq<Obj>, strt: seq<seq<Obj>>, hash: Text -> nat,
      ou: map<Obj, seq<Obj>>, uv: seq<Obj>)
    requires Lists(h, rootgc, strt, hash, ou, uv) && StringsSwept(m, cw, strt, |strt|)
    ensures StringsCurrent(h, m, cw) && RootSwept(m, cw, rootgc, ou, 0)
  {
    AllBuckets(h, m, cw, strt, hash);
  }

  lemma EverythingSwept(h: Heap, m: Marks, cw: Colour, fixed: set<Obj>, mainthread: Obj, roots: set<Obj>,
      rootgc: seq<Obj>, strt: seq<seq<Obj>>, hash: Text -> nat, ou: map<Obj, seq<Obj>>, uv: seq<Obj>)
    requires Lists(h, rootgc, strt, hash, ou, uv) && LiveState(h, m, cw, fixed, mainthread, roots)
    requires StringsCurrent(h, m, cw) && RootSwept(m, cw, rootgc, ou, |rootgc|)
    ensures AllCurrent(m, cw)
  {
    AllSwept(h, m, cw, rootgc, strt, hash, ou, uv);
  }

  lemma ReachHere(h: Heap, m: Marks, cw: Colour, roots: set<Obj>)
    requires Live(h, m, cw) && AllLive(roots, m, cw) && m.Keys == h.Keys
    ensures forall o :: Reach(h, roots, o) ==> o in h
  {
    forall o | Reach(h, roots, o) ensures o in h {
      ReachLive(h, m, cw, roots, o);
    }
  }

  lemma SweptKeys(h: Heap, m: Marks, h': Heap, m': Marks, cw: Colour, fixed: set<Obj>)
    requires Swept(h, m, h', m', cw, fixed)
    ensures h'.Keys <= h.Keys
  {
  }

  lemma ReachKept(h: Heap, m: Marks, h': Heap, m': Marks, cw: Colour, fixed: set<Obj>, roots: set<Obj>)
    requires Live(h, m, cw) && AllLive(roots, m, cw) && Swept(h, m, h', m', cw, fixed)
    ensures forall o :: Reach(h, roots, o) ==> o in h && o in h' && h'[o].tt == h[o].tt && Values(h', o) == Values(h, o)
  {
    forall o | Reach(h, roots, o) ensures o in h && o in h' && h'[o].tt == h[o].tt && Values(h', o) == Values(h, o) {
      ReachLive(h, m, cw, roots, o);
    }
  }

  predicate IsObj(o: Obj) { true }

  ghost function Everything(): iset<Obj> {
    iset o: Obj | IsObj(o)
  }

  lemma EverythingClosed(h: Heap, m: Marks)
    ensures ClosedSet(h, Everything()) && MarkedIn(m, Everything()) && forall r: Obj :: r in Everything()
  {
    assert forall o: Obj :: IsObj(o);
  }

  /** Who survives two sweeps with a mark phase between them. */
  lemma Survivors(h0: Heap, m0: Marks, w0: Colour, h1: Heap, m1: Marks, m2: Marks, cw: Colour, h: Heap, m: Marks,
      fixed: set<Obj>, roots: set<Obj>)
    requires Live(h0, m0, w0) && AllLive(roots, m0, w0) && Swept(h0, m0, h1, m1, w0, fixed)
    requires Live(h1, m2, cw) && AllLive(roots, m2, cw) && Swept(h1, m2, h, m, cw, fixed) && AllCurrent(m, cw)
        && IsWhite(cw)
    requires forall o :: o in m2 && !Dead(m2[o], cw) ==> Reach(h1, roots, o)
    ensures Collected(h0, h, fixed, roots)
  {
    hide Live, AllLive, Reach, Dead, AllCurrent;
    forall o ensures o in h <==> o in h0 && (Reach(h0, roots, o) || o in fixed) {
      ReachSwept(h0, m0, h1, m1, w0, fixed, roots, o);
      if Reach(h0, roots, o) { ReachLive(h0, m0, w0, roots, o); ReachLive(h1, m2, cw, roots, o); }
      if o in h1 { ExactlyFreed(h1, m2, h, m, cw, fixed, o); }
    }
    forall o ensures Reach(h, roots, o) <==> Reach(h0, roots, o) {
      ReachSwept(h0, m0, h1, m1, w0, fixed, roots, o);
      ReachSwept(h1, m2, h, m, cw, fixed, roots, o);
    }
  }
}
