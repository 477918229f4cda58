/** Programs that work on the heap while the collector runs: any sequence of instructions,
    with collector steps anywhere between them, never meets an object that was freed. */
module Programs {
  import opened GcHeap
  import opened GcLists
  import opened StringTables
  import opened Collector
  import opened Mutator
  import opened Barriers

  /** What a closure captures: a slot of the stack, or upvalue i of the enclosing closure, which is
      in stack slot s. */
  datatype Capture = OfStack(slot: nat, spare: Obj) | OfClosure(s: nat, i: nat)

  /** The operands are slots of the running thread's stack; `spare` is the address the
      allocator hands out. */
  datatype Instr =
    | Constant(d: nat, k: int)
    | Move(d: nat, s: nat)
    | GetRegistry(d: nat)
    | GetMeta(d: nat, i: nat)
    | SetMeta(i: nat, s: nat)
    | Get(d: nat, s: nat, i: nat)
    | Set(s: nat, i: nat, v: nat)
    | New(d: nat, tt: Tag, n: nat, spare: Obj)
    | Closure(d: nat, captured: seq<Capture>, spare: Obj)
    | Literal(d: nat, str: Text, spare: Obj)
    | FixString(s: nat)
    | CloseFrom(level: nat)
    | SetTop(n: nat)
    | Resume(s: nat)
    | Yield
    | CollectStep
    | CollectAll

  /** The collector leaves alone whatever the roots reach. */
  ghost predicate Untouched(h: Heap, h': Heap, roots: set<Obj>) {
    forall o :: Reach(h, roots, o) ==> o in h && o in h' && h'[o].tt == h[o].tt && Values(h', o) == Values(h, o)
  }

  // ----- what instructions mean, as if there were no collector -----

  /** What a program can tell about the state: no colours, no lists. */
  datatype World = World(heap: Heap, fixed: set<Obj>, running: Obj, mainthread: Obj, registry: Value, mt: seq<Value>)

  ghost function Seen(g: GlobalState): World
    reads g
  {
    World(g.heap, g.fixed, g.running, g.mainthread, g.registry, g.mt)
  }

  function WorldRoots(w: World): set<Obj> {
    RootsOf(w.mainthread, w.running, w.registry, w.mt)
  }

  /** Everything the program can reach is in the heap. */
  ghost predicate Intact(w: World) {
    forall o :: Reach(w.heap, WorldRoots(w), o) ==> o in w.heap
  }

  predicate InStack(h: Heap, th: Obj, i: nat) {
    th in h && h[th].body.Fields? && i < |h[th].body.vals|
  }

  function StackAt(h: Heap, th: Obj, i: nat): Value {
    if InStack(h, th, i) then h[th].body.vals[i] else Plain(0)
  }

  function StackValue(w: World, i: nat): Value {
    StackAt(w.heap, w.running, i)
  }

  function OnStack(h: Heap, th: Obj, d: nat, v: Value): Heap {
    if InStack(h, th, d) then Written(h, th, h[th].body.vals[d := v]) else h
  }

  function Stacked(w: World, d: nat, v: Value): World {
    w.(heap := OnStack(w.heap, w.running, d, v))
  }

  /** Field i of an object; an upvalue of a closure stands for the value of its cell. */
  function FieldValue(h: Heap, o: Obj, i: nat): Value {
    if o !in h || i >= |Values(h, o)| then Plain(0)
    else
      var v := Values(h, o)[i];
      if v.Ref? && v.o in h && h[o].tt == FUNCTION && h[v.o].tt == UPVAL && |Values(h, v.o)| == 1 then Values(h, v.o)[0]
          else v
  }

  ghost predicate FieldWritten(h: Heap, o: Obj, i: nat, v: Value, h': Heap) {
    if o !in h || !h[o].body.Fields? || i >= |h[o].body.vals| + (if h[o].tt == TABLE then 1 else 0) then h' == h
    else if h[o].tt == TABLE then h' == Written(h, o, Stored(h[o].body.vals, i, v))
    else
      var f := h[o].body.vals[i];
      if h[o].tt == FUNCTION && f.Ref? && f.o in h && h[f.o].tt == UPVAL then CellWritten(h, h', f.o, v)
      else h' == if h[o].tt == THREAD then h else Written(h, o, h[o].body.vals[i := v])
  }

  /** The upvalue of a slot: the one that shares it already, or a new one at the spare address. */
  ghost function UpvalOf(h: Heap, th: Obj, slot: nat, spare: Obj): (Heap, Obj) {
    if exists u :: OpenAt(h, u, th, slot) then (h, var u :| OpenAt(h, u, th, slot); u)
    else (h[spare := Shape(UPVAL, Slot(th, slot))], spare)
  }

  /** Upvalue i of a closure, to be shared. */
  function Inherited(h: Heap, v: Value, i: nat): seq<Value> {
    if v.Ref? && v.o in h && h[v.o].tt == FUNCTION && i < |Values(h, v.o)| then [Values(h, v.o)[i]] else []
  }

  /** One upvalue of a new closure. */
  ghost function UpvalFor(h: Heap, th: Obj, c: Capture): (Heap, seq<Value>) {
    match c
    case OfStack(slot, spare) =>
      if InStack(h, th, slot) && spare !in h then
        var (h2, u) := UpvalOf(h, th, slot, spare);
        (h2, [Ref(u)])
      else (h, [])
    case OfClosure(s, i) => (h, Inherited(h, StackAt(h, th, s), i))
  }

  /** The upvalues of a closure, one for each thing captured. */
  ghost function UpvalsOf(h: Heap, th: Obj, captured: seq<Capture>): (Heap, seq<Value>) {
    if captured == [] then (h, [])
    else
      var (h1, ups) := UpvalsOf(h, th, captured[..|captured| - 1]);
      var (h2, up) := UpvalFor(h1, th, captured[|captured| - 1]);
      (h2, ups + up)
  }

  /** The string with these bytes: the one that is there, or a new one at the spare address. */
  ghost function StringOf(h: Heap, str: Text, spare: Obj): (Heap, Obj) {
    if exists o :: o in h && h[o].body == Bytes(str) then (h, var o :| o in h && h[o].body == Bytes(str); o)
    else (h[spare := Shape(STRING, Bytes(str))], spare)
  }

  /** The slots of th from the level on are shared no longer: their upvalues have a value of
      their own now, and every value is what it was. */
  ghost predicate SlotsClosed(h: Heap, th: Obj, level: nat, roots: set<Obj>, h': Heap) {
    && h'.Keys <= h.Keys && Untouched(h, h', roots)
    && (forall o :: o in h && o !in h' ==> OpenFrom(h, th, level, o))
    && (forall o :: o in h' ==> h'[o].tt == h[o].tt && Values(h', o) == Values(h, o))
    && (forall o :: o in h' ==> if OpenFrom(h, th, level, o) then h'[o].body.Fields? else h'[o] == h[o])
  }

  predicate OpenFrom(h: Heap, th: Obj, level: nat, u: Obj) {
    IsOpen(h, u) && h[u].body.thread == th && h[u].body.index >= level
  }

  function Resized(vs: seq<Value>, n: nat): (r: seq<Value>)
    ensures |r| == n && forall i :: 0 <= i < n ==> r[i] == if i < |vs| then vs[i] else Plain(0)
  {
    if n <= |vs| then vs[..n] else vs + Nils(n - |vs|)
  }

  /** The stack has n slots now. */
  ghost predicate StackResized(h: Heap, th: Obj, n: nat, roots: set<Obj>, h': Heap) {
    exists h1: Heap ::
        SlotsClosed(h, th, n, roots, h1) && th in h1 && h1[th].body.Fields?
        && h' == Written(h1, th, Resized(h1[th].body.vals, n))
  }

  /** The collector only takes away what the program cannot reach. */
  ghost predicate OnlyGarbageGone(w: World, w': World) {
    w' == w.(heap := w'.heap) && w'.heap.Keys <= w.heap.Keys && Untouched(w.heap, w'.heap, WorldRoots(w))
  }

  /** One instruction. */
  ghost predicate Does(w: World, i: Instr, w': World) {
    match i
    case Constant(d, k) => w' == Stacked(w, d, Plain(k))
    case Move(d, s) => w' == Stacked(w, d, StackValue(w, s))
    case GetRegistry(d) => w' == Stacked(w, d, w.registry)
    case GetMeta(d, m) => w' == if m < |w.mt| then Stacked(w, d, w.mt[m]) else w
    case SetMeta(m, s) => w' == if m < |w.mt| then w.(mt := w.mt[m := StackValue(w, s)]) else w
    case Get(d, s, j) =>
      var o := StackValue(w, s);
      w' == if o.Ref? then Stacked(w, d, FieldValue(w.heap, o.o, j)) else w
    case Set(s, j, x) =>
      var o := StackValue(w, s);
      w' == w.(heap := w'.heap) && if o.Ref? then FieldWritten(w.heap, o.o, j, StackValue(w, x), w'.heap) else w' == w
    case New(d, tt, n, spare) =>
      w' == if spare !in w.heap && CanCreate(tt, Nils(n)) then MadeAt(w, w.heap, d, spare, tt, Nils(n)) else w
    case Closure(d, captured, spare) =>
      var (h, ups) := UpvalsOf(w.heap, w.running, captured);
      w' == if spare !in h then MadeAt(w, h, d, spare, FUNCTION, ups) else w.(heap := h)
    case Literal(d, str, spare) =>
      var (h, o) := StringOf(w.heap, str, spare);
      w' == if spare !in w.heap then Stacked(w.(heap := h), d, Ref(o)) else w
    case FixString(s) =>
      var o := StackValue(w, s);
      w' == if o.Ref? && o.o in w.heap && w.heap[o.o].body.Bytes? then w.(fixed := w.fixed + {o.o}) else w
    case CloseFrom(level) => w' == w.(heap := w'.heap) && SlotsClosed(w.heap, w.running, level, WorldRoots(w), w'.heap)
    case SetTop(n) => w' == w.(heap := w'.heap) && if n > 0
        then StackResized(w.heap, w.running, n, WorldRoots(w), w'.heap) else w' == w
    case Resume(s) =>
      var o := StackValue(w, s);
      w' == if o.Ref? && o.o in w.heap && w.heap[o.o].tt == THREAD then w.(running := o.o) else w
    case Yield => w' == w.(running := w.mainthread)
    case CollectStep => OnlyGarbageGone(w, w')
    case CollectAll => OnlyGarbageGone(w, w') && Collected(w.heap, w'.heap, w.fixed, WorldRoots(w))
  }

  /** A new object at the spare address of heap h, and on the stack. */
  function MadeAt(w: World, h: Heap, d: nat, spare: Obj, tt: Tag, vs: seq<Value>): World {
    Stacked(w.(heap := h[spare := Shape(tt, Fields(vs))]), d, Ref(spare))
  }

  // ----- laws of these meanings -----

  /** A slot that is written reads the value, and no other one changes. */
  lemma StackLaw(h: Heap, th: Obj, d: nat, v: Value, j: nat)
    requires InStack(h, th, d)
    ensures StackAt(OnStack(h, th, d, v), th, j) == if j == d then v else StackAt(h, th, j)
    ensures forall o :: o in h && o != th ==> OnStack(h, th, d, v)[o] == h[o]
  {
  }

  /** So does a field of a table, and a shared variable of a closure. */
  lemma FieldLaw(h: Heap, o: Obj, i: nat, v: Value, h': Heap)
    requires WFHeap(h) && o in h && h[o].body.Fields? && i < |h[o].body.vals| && h[o].tt != THREAD && h[o].tt != UPVAL
    requires FieldWritten(h, o, i, v, h') && (h[o].tt != FUNCTION ==> !v.Ref? || v.o != o)
    ensures h[o].tt == TABLE ==> FieldValue(h', o, i) == v
    ensures h[o].tt == TABLE ==> forall j :: 0 <= j < |h[o].body.vals| && j != i ==>
        FieldValue(h', o, j) == FieldValue(h, o, j)
  {
  }

  /** A closure starts with the variables it captures: a new upvalue reads its slot, and one that
      is inherited is the same cell. */
  lemma CaptureLaw(h: Heap, th: Obj, c: Capture)
    requires WFHeap(h)
    ensures var (h2, ups) := UpvalFor(h, th, c);
            match c
            case OfStack(slot, spare) =>
              if InStack(h, th, slot) && spare !in h then
                |ups| == 1 && ups[0].Ref? && ups[0].o in h2 && Values(h2, ups[0].o) == [StackAt(h, th, slot)]
              else ups == []
            case OfClosure(s, i) =>
              var f := StackAt(h, th, s);
              if f.Ref? && f.o in h && h[f.o].tt == FUNCTION && i < |Values(h, f.o)| then ups == [Values(h, f.o)[i]]
              else ups == []
  {
  }

  /** Which objects a program can make. */
  lemma CreateLaw(tt: Tag, vs: seq<Value>)
    ensures tt == TABLE || tt == USERDATA || tt == FUNCTION || tt == PROTO ==> CanCreate(tt, vs)
    ensures tt == THREAD && vs != [] ==> CanCreate(tt, vs)
    ensures CanCreate(tt, vs) ==> tt != STRING
  {
  }

  // ----- what the program may hold -----

  lemma StackShape(g: GlobalState)
    requires Ready(g)
    ensures g.heap[g.running].body.Fields? && |g.heap[g.running].body.vals| >= 1 && g.running in g.marked
        && g.marked.Keys == g.heap.Keys
    ensures forall i :: 0 <= i < |g.heap[g.running].body.vals| ==> Usable(g, g.heap[g.running].body.vals[i])
  {
    ValidGood(g);
    Basics(Now(g), {});
    RunningShape(g.heap, g.running);
    RunningUsable(Now(g));
  }

  lemma RunningShape(h: Heap, th: Obj)
    requires WFHeap(h) && th in h && h[th].tt == THREAD
    ensures h[th].body.Fields? && |h[th].body.vals| >= 1
  {
    assert WFObject(h, th);
  }

  lemma RunningUsable(s: State)
    requires Good(s, {}) && s.running in s.heap && s.heap[s.running].body.Fields?
    ensures forall i :: 0 <= i < |s.heap[s.running].body.vals| ==>
        Live1(s.marked, s.currentwhite, s.heap[s.running].body.vals[i])
  {
    hide Lists, PhaseOk, WFHeap, Chained;
    MainIsRoot(s.mainthread, s.running, s.registry, s.mt);
    forall i | 0 <= i < |s.heap[s.running].body.vals|
        ensures Live1(s.marked, s.currentwhite, s.heap[s.running].body.vals[i]) {
      var v := s.heap[s.running].body.vals[i];
      if v.Ref? { assert Edge(s.heap, s.running, v.o); }
    }
  }

  /** What a usable object refers to is usable. */
  lemma FieldUsable(g: GlobalState, o: Obj)
    requires g.Valid() && Usable(g, Ref(o))
    ensures o in g.heap && o in g.marked
    ensures forall i :: 0 <= i < |Values(g.heap, o)| ==> Usable(g, Values(g.heap, o)[i])
  {
    hide g.Listed, g.InPhase, WFHeap, AllLive, Values;
    forall i | 0 <= i < |Values(g.heap, o)| ensures Usable(g, Values(g.heap, o)[i]) {
      var v := Values(g.heap, o)[i];
      if v.Ref? { assert Edge(g.heap, o, v.o); }
    }
  }

  lemma RootsUsable(g: GlobalState)
    requires g.Valid()
    ensures Usable(g, g.registry) && Usable(g, Ref(g.mainthread)) && forall i :: 0 <= i < |g.mt| ==> Usable(g, g.mt[i])
    ensures g.mainthread in g.heap && g.heap[g.mainthread].tt == THREAD
  {
    hide g.Listed, g.InPhase, WFHeap, Live;
    MainIsRoot(g.mainthread, g.running, g.registry, g.mt);
    var all := [g.registry] + g.mt;
    forall i | 0 <= i < |all| ensures Usable(g, all[i]) {
      if all[i].Ref? { assert all[i].o in RefsOf(all); }
    }
    assert all[0] == g.registry;
    forall i | 0 <= i < |g.mt| ensures Usable(g, g.mt[i]) { assert all[i + 1] == g.mt[i]; }
  }

  // ----- instructions -----

  /** A stack slot of the running thread gets a value. */
  method Put(g: GlobalState, d: nat, v: Value)
    requires Ready(g) && Usable(g, v)
    modifies g`heap
    ensures Ready(g) && g.heap == OnStack(old(g.heap), g.running, d, v)
  {
    hide GlobalState.Valid;
    StackShape(g);
    if d < |g.heap[g.running].body.vals| {
      SetStack(g, g.running, d, v);
    }
  }

  method Fetch(g: GlobalState, s: nat) returns (v: Value)
    requires Ready(g)
    ensures Usable(g, v) && v == StackValue(Seen(g), s)
  {
    hide GlobalState.Valid;
    StackShape(g);
    v := if s < |g.heap[g.running].body.vals| then g.heap[g.running].body.vals[s] else Plain(0);
  }

  /** OP_GETTABLE and OP_GETUPVAL: field i of an object; the upvalue of a closure stands for
      the value of its cell. */
  method GetField(g: GlobalState, o: Obj, i: nat) returns (v: Value)
    requires Ready(g) && Usable(g, Ref(o))
    ensures Usable(g, v) && v == FieldValue(g.heap, o, i)
  {
    hide GlobalState.Valid, Values;
    FieldUsable(g, o);
    if i >= |Values(g.heap, o)| { return Plain(0); }
    v := Values(g.heap, o)[i];
    if v.Ref? {
      FieldUsable(g, v.o);
      if g.heap[o].tt == FUNCTION && g.heap[v.o].tt == UPVAL && |Values(g.heap, v.o)| == 1 {
        v := Values(g.heap, v.o)[0];
      }
    }
  }

  /** OP_SETTABLE, OP_SETUPVAL and the writes of the C API, each with its barrier. */
  method PutField(g: GlobalState, o: Obj, i: nat, v: Value)
    requires Ready(g) && Usable(g, Ref(o)) && Usable(g, v)
    modifies g`heap, g`marked, g`gray, g`grayagain
    ensures Ready(g) && FieldWritten(old(g.heap), o, i, v, g.heap)
  {
    hide GlobalState.Valid, Values;
    FieldUsable(g, o);
    if !g.heap[o].body.Fields? || i >= |g.heap[o].body.vals| + (if g.heap[o].tt == TABLE then 1 else 0) { return; }
    ValuesAre(g.heap, o);
    if g.heap[o].tt == TABLE {
      SetTable(g, o, i, v);
    } else if g.heap[o].tt == FUNCTION && g.heap[o].body.vals[i].Ref? {
      var u := g.heap[o].body.vals[i].o;
      FieldUsable(g, u);
      if g.heap[u].tt == UPVAL { SetUpval(g, u, v); } else { SetField(g, o, i, v); }
    } else if g.heap[o].tt != THREAD {
      SetField(g, o, i, v);
    }
  }

  lemma ValuesAre(h: Heap, o: Obj)
    requires o in h && h[o].body.Fields?
    ensures Values(h, o) == h[o].body.vals
  {
  }

  /** OP_CLOSURE finds or makes an upvalue for each slot it captures, and shares those of the
      enclosing closure. */
  method FindUpvals(g: GlobalState, captured: seq<Capture>) returns (ups: seq<Value>)
    requires Ready(g)
    modifies g`heap, g`marked, g`openupval, g`uvhead
    ensures Ready(g) && AllLiveValues(g.marked, g.currentwhite, ups)
    ensures (g.heap, ups) == UpvalsOf(old(g.heap), g.running, captured)
  {
    hide GlobalState.Valid, UpvalFor;
    ups := [];
    var j := 0;
    while j < |captured|
      invariant 0 <= j <= |captured| && Ready(g) && AllLiveValues(g.marked, g.currentwhite, ups)
      invariant (g.heap, ups) == UpvalsOf(old(g.heap), g.running, captured[..j])
    {
      assert captured[..j + 1][..j] == captured[..j];
      var up := FindOne(g, captured[j]);
      ups := ups + up;
      j := j + 1;
    }
    assert captured[..j] == captured;
  }

  method FindOne(g: GlobalState, c: Capture) returns (up: seq<Value>)
    requires Ready(g)
    modifies g`heap, g`marked, g`openupval, g`uvhead
    ensures Ready(g) && AllLiveValues(g.marked, g.currentwhite, up)
    ensures (g.heap, up) == UpvalFor(old(g.heap), g.running, c)
    ensures forall p :: p in old(g.marked) && !Dead(old(g.marked)[p], g.currentwhite) ==>
        p in g.marked && g.marked[p] == old(g.marked)[p]
  {
    hide GlobalState.Valid, UpvalOf, Values;
    StackShape(g);
    match c {
      case OfStack(slot, spare) =>
        up := [];
        if slot < |g.heap[g.running].body.vals| && spare !in g.heap {
          ghost var h := g.heap;
          var u := FindUpval(g, slot, spare);
          TheUpval(g, h, slot, spare, u);
          up := [Ref(u)];
        }
      case OfClosure(s, i) =>
        var v := Fetch(g, s);
        if v.Ref? { FieldUsable(g, v.o); }
        up := Inherited(g.heap, v, i);
    }
  }

  lemma TheUpval(g: GlobalState, h: Heap, slot: nat, spare: Obj, u: Obj)
    requires g.Valid() && OpenAt(g.heap, u, g.running, slot)
    requires (exists v :: OpenAt(h, v, g.running, slot)) ==> g.heap == h && OpenAt(h, u, g.running, slot)
    requires !(exists v :: OpenAt(h, v, g.running, slot)) ==>
        u == spare && g.heap == h[spare := Shape(UPVAL, Slot(g.running, slot))]
    ensures (g.heap, u) == UpvalOf(h, g.running, slot, spare)
  {
    hide GlobalState.Valid;
    if exists v :: OpenAt(h, v, g.running, slot) {
      UpvalUnique(g, u, UpvalOf(h, g.running, slot, spare).1, g.running, slot);
    }
  }

  /** A new object is linked and put on the stack. */
  method Create(g: GlobalState, d: nat, o: Obj, tt: Tag, vs: seq<Value>)
    requires Ready(g) && o !in g.heap && CanCreate(tt, vs) && AllLiveValues(g.marked, g.currentwhite, vs)
    modifies g`heap, g`marked, g`rootgc, g`sweepgc, g`openupval
    ensures Ready(g) && g.heap == OnStack(old(g.heap)[o := Shape(tt, Fields(vs))], g.running, d, Ref(o))
  {
    hide GlobalState.Valid, CanCreate, AllLiveValues, OnStack;
    Link(g, o, tt, vs);
    Put(g, d, Ref(o));
  }

  function Nils(n: nat): (vs: seq<Value>)
    ensures |vs| == n && forall i :: 0 <= i < n ==> vs[i] == Plain(0)
  {
    seq(n, i => Plain(0))
  }

  /** luaF_close takes away dead upvalues only. */
  method CloseSlots(g: GlobalState, level: nat)
    requires Ready(g)
    modifies g`heap, g`marked, g`gray, g`rootgc, g`sweepgc, g`openupval, g`uvhead
    ensures Ready(g) && SlotsClosed(old(g.heap), g.running, level, g.Roots(), g.heap)
    ensures forall u :: IsOpen(g.heap, u) && g.heap[u].body.thread == g.running ==> g.heap[u].body.index < level
  {
    hide GlobalState.Valid, Reach, ClosedDown;
    ghost var h, m := g.heap, g.marked;
    Marked(g);
    forall o | Reach(h, g.Roots(), o) ensures o in h && o in m && !Dead(m[o], g.currentwhite) { Safety(g, o); }
    Close(g, level);
    ClosedSlots(h, m, g.heap, g.marked, g.currentwhite, g.running, level, g.Roots());
  }

  lemma Marked(g: GlobalState)
    requires g.Valid()
    ensures g.marked.Keys == g.heap.Keys
  {
    ValidGood(g);
    Basics(Now(g), {});
  }

  lemma ClosedSlots(h: Heap, m: Marks, h': Heap, m': Marks, cw: Colour, th: Obj, level: nat, roots: set<Obj>)
    requires ClosedDown(h, m, h', m', cw, th, level) && m.Keys == h.Keys
    requires forall o :: Reach(h, roots, o) ==> o in h && o in m && !Dead(m[o], cw)
    requires forall u :: IsOpen(h', u) && h'[u].body.thread == th ==> h'[u].body.index < level
    ensures SlotsClosed(h, th, level, roots, h')
  {
    hide Reach;
  }

  /** The stack gets n slots; upvalues of the slots that disappear are closed first. */
  method SetStackSize(g: GlobalState, n: nat)
    requires Ready(g) && n > 0
    modifies g`heap, g`marked, g`gray, g`rootgc, g`sweepgc, g`openupval, g`uvhead
    ensures Ready(g) && StackResized(old(g.heap), g.running, n, g.Roots(), g.heap)
  {
    hide GlobalState.Valid, Good, WFHeap, Written, Values, CanHold, ChangesLive, SlotsClosed;
    CloseSlots(g, n);
    StackShape(g);
    ghost var s := Now(g);
    ValidGood(g);
    Basics(s, {});
    var vs := g.heap[g.running].body.vals;
    vs := Resized(vs, n);
    TopOk(s.heap, s.marked, s.currentwhite, s.running, n, vs);
    WriteOk(s, s.running, vs);
    StackColours(s, s.running);
    TagKept(g.heap, g.running, vs);
    WrittenBody(g.heap, g.running, vs);
    g.heap := Written(g.heap, g.running, vs);
    SameState(Now(g), s.(heap := g.heap));
    NoBarrier(Now(g), g.running);
    ValidGood(g);
  }

  lemma WrittenBody(h: Heap, o: Obj, vs: seq<Value>)
    requires o in h
    ensures o in Written(h, o, vs) && Written(h, o, vs)[o].body == Fields(vs)
  {
  }

  lemma TopOk(h: Heap, m: Marks, cw: Colour, th: Obj, n: nat, vs: seq<Value>)
    requires WFHeap(h) && th in h && h[th].tt == THREAD && h[th].body.Fields? && n > 0
    requires vs == Resized(h[th].body.vals, n)
    requires forall u :: IsOpen(h, u) && h[u].body.thread == th ==> h[u].body.index < n
    ensures CanHold(h, th, vs) && ChangesLive(h, m, cw, th, vs)
  {
  }

  lemma RunOk(s: State, th: Obj)
    requires Good(s, {}) && th in s.marked && !Dead(s.marked[th], s.currentwhite)
    ensures Good(s.(running := th), {})
  {
    hide Lists, Live, Chained, WFHeap, PhaseOk, FixedOk, RefsOf;
    PhaseRun(s, th);
  }

  lemma PhaseRun(s: State, th: Obj)
    requires PhaseOk(s, {})
    ensures PhaseOk(s.(running := th), {})
  {
    hide MarkState, StringsSwept, RootSwept, AllMarked, StringsCurrent, OpenNotBlack, AllCurrent;
  }

  /** Another thread runs now. */
  method SetRunning(g: GlobalState, th: Obj)
    requires Ready(g) && Usable(g, Ref(th)) && th in g.heap && g.heap[th].tt == THREAD
    modifies g`running
    ensures Ready(g) && g.running == th
  {
    hide GlobalState.Valid, Good;
    ghost var s := Now(g);
    ValidGood(g);
    RunOk(s, th);
    g.running := th;
    SameState(Now(g), s.(running := th));
    ValidGood(g);
  }

  lemma MetaOk(s: State, i: nat, v: Value)
    requires Good(s, {}) && i < |s.mt| && Live1(s.marked, s.currentwhite, v)
    ensures Good(s.(mt := s.mt[i := v]), {})
  {
    hide Lists, Live, Chained, WFHeap, PhaseOk, FixedOk;
    PhaseMeta(s, i, v);
    var a, b := [s.registry] + s.mt, [s.registry] + s.mt[i := v];
    forall o | o in RefsOf(b) ensures o in RefsOf(a) || v == Ref(o) {
      var j :| 0 <= j < |b| && b[j] == Ref(o);
      if j != i + 1 { assert a[j] == b[j]; }
    }
  }

  lemma PhaseMeta(s: State, i: nat, v: Value)
    requires PhaseOk(s, {}) && i < |s.mt|
    ensures PhaseOk(s.(mt := s.mt[i := v]), {})
  {
    hide MarkState, StringsSwept, RootSwept, AllMarked, StringsCurrent, OpenNotBlack, AllCurrent, RefsOf;
  }

  /** lua_setmetatable on a basic type: no barrier, atomic marks these again. */
  method SetMetatable(g: GlobalState, i: nat, v: Value)
    requires Ready(g) && Usable(g, v) && i < |g.mt|
    modifies g`mt
    ensures Ready(g) && g.mt == old(g.mt)[i := v]
  {
    hide GlobalState.Valid, Good;
    ghost var s := Now(g);
    ValidGood(g);
    MetaOk(s, i, v);
    g.mt := g.mt[i := v];
    SameState(Now(g), s.(mt := g.mt));
    ValidGood(g);
  }

  /** The running thread can be reached, so a collector step leaves it alone. */
  method StepCollector(g: GlobalState)
    requires Ready(g)
    modifies g`heap, g`marked, g`gray, g`grayagain, g`currentwhite, g`gcstate, g`strt, g`nuse, g`sweepstrgc,
        g`openupval, g`uvhead, g`rootgc, g`sweepgc
    ensures Ready(g) && OnlyGarbageGone(old(Seen(g)), Seen(g))
  {
    hide GlobalState.Valid, Reach, Whites, Swept;
    MainIsRoot(g.mainthread, g.running, g.registry, g.mt);
    ReachRoot(g.heap, g.Roots(), g.running);
    g.SingleStep();
  }

  /** luaC_step: collector steps until their work adds up to the limit or the cycle ends. */
  method Collect(g: GlobalState, steps: nat)
    requires Ready(g)
    modifies g`heap, g`marked, g`gray, g`grayagain, g`currentwhite, g`gcstate, g`strt, g`nuse, g`sweepstrgc,
        g`openupval, g`uvhead, g`rootgc, g`sweepgc
    ensures Ready(g) && OnlyGarbageGone(old(Seen(g)), Seen(g))
  {
    hide GlobalState.Valid, OnlyGarbageGone, WorldRoots, Untouched;
    var lim := steps;
    ReachedHere(g);
    NothingGone(Seen(g));
    while lim > 0
      invariant Ready(g) && OnlyGarbageGone(old(Seen(g)), Seen(g))
    {
      ghost var w := Seen(g);
      StepCollector(g);
      GoneTrans(old(Seen(g)), w, Seen(g));
      lim := if g.gcstate == Pause then 0 else lim - 1;
    }
  }

  lemma NothingGone(w: World)
    requires Intact(w)
    ensures OnlyGarbageGone(w, w)
  {
  }

  /** What is reachable stays so, whatever becomes of the garbage. */
  lemma {:induction false} ReachStays(h: Heap, h': Heap, roots: set<Obj>, p: seq<Obj>, n: nat)
    requires Untouched(h, h', roots) && Path(h, p) && p[0] in roots && n < |p|
    ensures Path(h', p[..n + 1])
    decreases n
  {
    if n == 0 {
    } else {
      ReachStays(h, h', roots, p, n - 1);
      var q := p[..n];
      assert Leads(h, roots, q, q[n - 1]);
      assert Edge(h, p[n - 1], p[n]);
    }
  }

  lemma StillReached(h: Heap, h': Heap, roots: set<Obj>, o: Obj)
    requires Untouched(h, h', roots) && Reach(h, roots, o)
    ensures Reach(h', roots, o)
  {
    var p :| Leads(h, roots, p, o);
    ReachStays(h, h', roots, p, |p| - 1);
    assert p[..|p| - 1 + 1] == p;
    assert Leads(h', roots, p, o);
  }

  lemma GoneTrans(w: World, w1: World, w2: World)
    requires OnlyGarbageGone(w, w1) && OnlyGarbageGone(w1, w2)
    ensures OnlyGarbageGone(w, w2)
  {
    hide Reach;
    forall o | Reach(w.heap, WorldRoots(w), o) ensures Reach(w1.heap, WorldRoots(w), o) {
      StillReached(w.heap, w1.heap, WorldRoots(w), o);
    }
  }

  method CollectFully(g: GlobalState)
    requires Ready(g)
    modifies g`heap, g`marked, g`gray, g`grayagain, g`currentwhite, g`gcstate, g`strt, g`nuse, g`sweepstrgc,
        g`openupval, g`uvhead, g`rootgc, g`sweepgc
    ensures Ready(g) && OnlyGarbageGone(old(Seen(g)), Seen(g)) && Collected(old(g.heap), g.heap, g.fixed, g.Roots())
  {
    hide GlobalState.Valid, Reach;
    MainIsRoot(g.mainthread, g.running, g.registry, g.mt);
    ReachRoot(g.heap, g.Roots(), g.running);
    ReachedHere(g);
    g.FullGc();
  }

  lemma ReachedHere(g: GlobalState)
    requires g.Valid()
    ensures Intact(Seen(g))
  {
    hide GlobalState.Valid, Reach;
    forall o | Reach(g.heap, g.Roots(), o) ensures o in g.heap { Safety(g, o); }
  }

  // ----- runs -----

  /** One instruction; one with operands that make no sense does nothing. */
  method Perform(g: GlobalState, i: Instr)
    requires Ready(g)
    modifies g
    ensures Ready(g) && Does(old(Seen(g)), i, Seen(g))
  {
    hide GlobalState.Valid, Usable, OnlyGarbageGone, Collected, SlotsClosed, StackResized, OnStack, RootsOf, UpvalsOf,
        StringOf, FieldWritten, FieldValue;
    match i {
      case Constant(d, k) => PlainUsable(g, k); Put(g, d, Plain(k));
      case Move(d, s) => var v := Fetch(g, s); Put(g, d, v);
      case GetRegistry(d) => RootsUsable(g); Put(g, d, g.registry);
      case GetMeta(d, m) => RootsUsable(g); if m < |g.mt| { Put(g, d, g.mt[m]); }
      case SetMeta(m, s) => if m < |g.mt| { var v := Fetch(g, s); SetMetatable(g, m, v); }
      case Get(d, s, j) => GetAt(g, d, s, j);
      case Set(s, j, x) => SetAt(g, s, j, x);
      case New(d, tt, n, spare) => NewAt(g, d, tt, n, spare);
      case Closure(d, captured, spare) => ClosureAt(g, d, captured, spare);
      case Literal(d, str, spare) => if spare !in g.heap { PutString(g, d, str, spare); }
      case FixString(s) => FixAt(g, s);
      case CloseFrom(level) => CloseSlots(g, level);
      case SetTop(n) => if n > 0 { SetStackSize(g, n); }
      case Resume(s) => ResumeAt(g, s);
      case Yield => RootsUsable(g); SetRunning(g, g.mainthread);
      case CollectStep => StepCollector(g);
      case CollectAll => CollectFully(g);
    }
  }

  method GetAt(g: GlobalState, d: nat, s: nat, j: nat)
    requires Ready(g)
    modifies g`heap
    ensures Ready(g) && Does(old(Seen(g)), Get(d, s, j), Seen(g))
  {
    hide GlobalState.Valid, Usable, OnStack, FieldValue;
    var o := Fetch(g, s);
    if o.Ref? {
      var v := GetField(g, o.o, j);
      Put(g, d, v);
    }
  }

  method SetAt(g: GlobalState, s: nat, j: nat, x: nat)
    requires Ready(g)
    modifies g`heap, g`marked, g`gray, g`grayagain
    ensures Ready(g) && Does(old(Seen(g)), Set(s, j, x), Seen(g))
  {
    hide GlobalState.Valid, Usable, FieldWritten;
    var o := Fetch(g, s);
    var v := Fetch(g, x);
    if o.Ref? { PutField(g, o.o, j, v); }
  }

  method NewAt(g: GlobalState, d: nat, tt: Tag, n: nat, spare: Obj)
    requires Ready(g)
    modifies g`heap, g`marked, g`rootgc, g`sweepgc, g`openupval
    ensures Ready(g) && Does(old(Seen(g)), New(d, tt, n, spare), Seen(g))
  {
    hide GlobalState.Valid, CanCreate, AllLiveValues, OnStack;
    NilsLive(g, n);
    if spare !in g.heap && CanCreate(tt, Nils(n)) { Create(g, d, spare, tt, Nils(n)); }
  }

  /** OP_CLOSURE. */
  method ClosureAt(g: GlobalState, d: nat, captured: seq<Capture>, spare: Obj)
    requires Ready(g)
    modifies g`heap, g`marked, g`rootgc, g`sweepgc, g`openupval, g`uvhead
    ensures Ready(g) && Does(old(Seen(g)), Closure(d, captured, spare), Seen(g))
  {
    hide GlobalState.Valid, CanCreate, AllLiveValues, OnStack, UpvalsOf;
    var ups := FindUpvals(g, captured);
    ClosureKind(ups);
    if spare !in g.heap { Create(g, d, spare, FUNCTION, ups); }
  }

  lemma PlainUsable(g: GlobalState, k: int)
    ensures Usable(g, Plain(k))
  {
  }

  lemma NilsLive(g: GlobalState, n: nat)
    ensures AllLiveValues(g.marked, g.currentwhite, Nils(n))
  {
  }

  lemma ClosureKind(ups: seq<Value>)
    ensures CanCreate(FUNCTION, ups)
  {
  }

  method PutString(g: GlobalState, d: nat, str: Text, spare: Obj)
    requires Ready(g) && spare !in g.heap
    modifies g`heap, g`marked, g`strt, g`nuse
    ensures Ready(g) && var (h, o) := StringOf(old(g.heap), str, spare); g.heap == OnStack(h, g.running, d, Ref(o))
  {
    hide GlobalState.Valid;
    ghost var h := g.heap;
    var o := NewString(g, str, spare);
    if exists p :: p in h && h[p].body == Bytes(str) {
      var p := StringOf(h, str, spare).1;
      assert p in g.heap && g.heap[p].body == Bytes(str);
    }
    Put(g, d, Ref(o));
  }

  method FixAt(g: GlobalState, s: nat)
    requires Ready(g)
    modifies g`fixed
    ensures Ready(g) && Does(old(Seen(g)), FixString(s), Seen(g))
  {
    hide GlobalState.Valid;
    var o := Fetch(g, s);
    if o.Ref? {
      FieldUsable(g, o.o);
      if g.heap[o.o].body.Bytes? { Fix(g, o.o); }
    }
  }

  method ResumeAt(g: GlobalState, s: nat)
    requires Ready(g)
    modifies g`running
    ensures Ready(g) && Does(old(Seen(g)), Resume(s), Seen(g))
  {
    hide GlobalState.Valid;
    var v := Fetch(g, s);
    if v.Ref? {
      FieldUsable(g, v.o);
      if g.heap[v.o].tt == THREAD { SetRunning(g, v.o); }
    }
  }

  /** A run in which every step does what its instruction means, and everything reachable is
      there all the time. */
  ghost predicate SafeRun(trace: seq<World>, program: seq<Instr>) {
    && |trace| == |program| + 1
    && (forall k :: 0 <= k < |program| ==> Does(trace[k], program[k], trace[k + 1]))
    && (forall k :: 0 <= k < |trace| ==> Intact(trace[k]))
  }

  lemma OneStepMore(trace: seq<World>, program: seq<Instr>, n: nat, w: World)
    requires n < |program| && SafeRun(trace, program[..n])
    requires Does(trace[n], program[n], w) && Intact(w)
    ensures SafeRun(trace + [w], program[..n + 1])
  {
    hide Does, Intact;
    var longer, done := trace + [w], program[..n + 1];
    forall k | 0 <= k <= n ensures Does(longer[k], done[k], longer[k + 1]) {
      if k < n { assert Does(trace[k], program[..n][k], trace[k + 1]); }
    }
  }

  /** Any run, with collector steps anywhere: seen from the program it is a run without a
      collector, except that garbage disappears; what the program can reach is always there,
      and is never about to be freed. */
  method Run(g: GlobalState, program: seq<Instr>) returns (ghost trace: seq<World>)
    requires Ready(g)
    modifies g
    ensures SafeRun(trace, program) && trace[0] == old(Seen(g)) && trace[|program|] == Seen(g)
    ensures Ready(g) && forall o :: Reach(g.heap, g.Roots(), o) ==>
        o in g.heap && o in g.marked && !Dead(g.marked[o], g.currentwhite)
  {
    hide GlobalState.Valid, Reach, Dead, Does, Intact;
    var pc := 0;
    ReachedHere(g);
    trace := [Seen(g)];
    while pc < |program|
      invariant 0 <= pc <= |program| && Ready(g) && SafeRun(trace, program[..pc]) && trace[0] == old(Seen(g))
          && trace[pc] == Seen(g)
    {
      Perform(g, program[pc]);
      ReachedHere(g);
      OneStepMore(trace, program, pc, Seen(g));
      trace := trace + [Seen(g)];
      pc := pc + 1;
    }
    assert program[..pc] == program;
    forall o | Reach(g.heap, g.Roots(), o) ensures o in g.heap && o in g.marked && !Dead(g.marked[o], g.currentwhite) {
      Safety(g, o);
    }
  }

  // ----- the first state -----

  /** f_luaopen. */
  method NewState(hash: Text -> nat, mainthread: Obj, registry: Obj, stacksize: nat) returns (g: GlobalState)
    requires stacksize > 0 && mainthread != registry
    ensures fresh(g) && Ready(g) && g.gcstate == Pause && Seen(g) == FirstWorld(mainthread, registry, stacksize)
  {
    hide GlobalState.Valid, Good;
    g := new GlobalState(hash, mainthread, registry, Nils(stacksize));
    FirstOk(Now(g), registry, stacksize);
    ValidGood(g);
  }

  /** Any program from the first state on: no instruction ever finds an object gone, and each does
      what it means. */
  method RunNew(hash: Text -> nat, mainthread: Obj, registry: Obj, stacksize: nat, program: seq<Instr>)
    returns (g: GlobalState, ghost trace: seq<World>)
    requires stacksize > 0 && mainthread != registry
    ensures fresh(g) && Ready(g) && SafeRun(trace, program)
    ensures trace[0] == FirstWorld(mainthread, registry, stacksize) && trace[|program|] == Seen(g)
    ensures forall o :: Reach(g.heap, g.Roots(), o) ==>
        o in g.heap && o in g.marked && !Dead(g.marked[o], g.currentwhite)
  {
    hide GlobalState.Valid, Reach, Dead, SafeRun;
    g := NewState(hash, mainthread, registry, stacksize);
    trace := Run(g, program);
  }

  /** The program starts on the main thread, which is fixed; the registry is an empty table. */
  function FirstWorld(mainthread: Obj, registry: Obj, n: nat): World {
    World(FirstHeap(mainthread, registry, n), {mainthread}, mainthread, mainthread, Ref(registry), [])
  }

  function FirstHeap(mainthread: Obj, registry: Obj, n: nat): Heap {
    map[mainthread := Shape(THREAD, Fields(Nils(n))), registry := Shape(TABLE, Fields([]))]
  }

  lemma FirstLists(h: Heap, hash: Text -> nat, mainthread: Obj, registry: Obj, n: nat)
    requires mainthread != registry && h == FirstHeap(mainthread, registry, n)
    ensures Lists(h, [registry, mainthread], EmptyTable(MINSTRTABSIZE), hash, map[mainthread := []], [])
  {
    assert Descending(h, mainthread, []);
    assert forall u :: !IsOpen(h, u);
    var rootgc := [registry, mainthread];
    assert registry == rootgc[0] && mainthread == rootgc[1];
  }

  lemma FirstLive(h: Heap, m: Marks, mainthread: Obj, registry: Obj, n: nat)
    requires n > 0 && mainthread != registry && h == FirstHeap(mainthread, registry, n)
        && m == map[mainthread := White0, registry := White0]
    ensures LiveState(h, m, White0, {mainthread}, mainthread, RootsOf(mainthread, mainthread, Ref(registry), []))
  {
    assert Values(h, registry) == [] && Values(h, mainthread) == Nils(n);
    assert forall i :: 0 <= i < n ==> !Nils(n)[i].Ref?;
    assert forall x, p :: !Edge(h, x, p);
  }

  lemma FirstOk(s: State, registry: Obj, n: nat)
    requires n > 0 && s.registry == Ref(registry) && s.mainthread != registry && s.running == s.mainthread
    requires s.heap == FirstHeap(s.mainthread, registry, n)
        && s.marked == map[s.mainthread := White0, registry := White0]
    requires s.fixed == {s.mainthread} && s.currentwhite == White0 && s.gcstate == Pause
        && s.rootgc == [registry, s.mainthread]
    requires s.strt == EmptyTable(MINSTRTABSIZE) && s.nuse == 0 && s.openupval == map[s.mainthread := []]
        && s.uvhead == [] && s.mt == []
    ensures Good(s, {}) && s.running in s.heap && s.heap[s.running].tt == THREAD
  {
    hide Lists, LiveState, Chained;
    FirstLists(s.heap, s.hash, s.mainthread, registry, n);
    FirstLive(s.heap, s.marked, s.mainthread, registry, n);
    EmptyChained(MINSTRTABSIZE);
  }
}
