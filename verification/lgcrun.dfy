/** A program at work while the collector runs: any interleaving of the operations of lapi.c and lvm.c on a
    heap with the steps of lgc.c. */
module LuaCollected {
  import opened GcHeap
  import opened LuaGc

  /** What a program can see of the state: no colours, no lists, no phase. */
  datatype World = World(objs: Objs, main: Ref, running: Ref, registry: Val, errfunc: Val, mt: seq<Val>)

  ghost function Seen(g: GlobalState): World
    reads g
  {
    World(g.objs, g.mainthread, g.running, g.registry, g.errfunc, g.mt)
  }

  ghost function RootsOf(w: World): set<Ref> {
    RefsOf([Val.Ref(w.main), w.registry] + ([Val.Ref(w.running), w.errfunc] + w.mt))
  }

  ghost predicate Live(w: World, r: Ref) {
    Reachable(w.objs, RootsOf(w), r)
  }

  /** Nothing reachable is missing, and no open upvalue stands for a slot of a stack that is gone. */
  ghost predicate Standing(w: World) {
    && w.running in w.objs && w.objs[w.running].kind == KThread
    && (forall u :: u in w.objs && IsOpen(w.objs[u]) ==> w.objs[u].slot.thread in w.objs && w.objs[w.objs[u].slot.thread].kind == KThread)
    && forall r :: Live(w, r) ==> r in w.objs
  }

  /** The operations name slots of the running stack, whose slot 0 holds the table of globals; `r` is the
      address the allocator has for a new object. */
  datatype Op =
    | Move(a: nat, b: nat)
    | Load(a: nat, b: nat, i: nat)
    | Store(b: nat, i: nat, a: nat)
    | SetTop(n: nat)
    | New(a: nat, kind: Kind, parts: seq<nat>, r: Ref)
    | Str(a: nat, h: nat, r: Ref)
    | Upval(a: nat, i: nat, r: Ref)
    | Resume(b: nat)
    | Anchor(h: nat, basic: seq<nat>)
    | Registry(a: nat)
    | Collect
    | FullCollect

  function Stack(w: World): seq<Val> {
    if w.running in w.objs then w.objs[w.running].fields else []
  }

  /** index2adr: a slot outside the stack is nil. */
  function At(w: World, b: nat): Val {
    if b < |Stack(w)| then Stack(w)[b] else Plain
  }

  function Put(w: World, a: nat, v: Val): World {
    if a < |Stack(w)| then w.(objs := w.objs[w.running := w.objs[w.running].(fields := Stack(w)[a := v])]) else w
  }

  function Part(w: World, b: nat, i: nat): Val {
    var v := At(w, b);
    if v.Ref? && v.r in w.objs && i < |FieldsOf(w.objs, v.r)| then FieldsOf(w.objs, v.r)[i] else Plain
  }

  /** A store into an object; through an open upvalue it goes to the slot. */
  function StoredIn(w: World, b: nat, i: nat, v: Val): World {
    var o := At(w, b);
    if !o.Ref? || o.r !in w.objs || i >= |FieldsOf(w.objs, o.r)| then w
    else
      var t := if IsOpen(w.objs[o.r]) then w.objs[o.r].slot.thread else o.r;
      var k := if IsOpen(w.objs[o.r]) then w.objs[o.r].slot.i else i;
      if t in w.objs && k < |w.objs[t].fields|
      then w.(objs := w.objs[t := w.objs[t].(fields := w.objs[t].fields[k := v])]) else w
  }

  predicate CanBe(kind: Kind, parts: seq<nat>) {
    kind != KString && (kind == KThread ==> parts != []) && (kind == KUpval ==> |parts| == 1)
  }

  function Parts(w: World, parts: seq<nat>): seq<Val> {
    seq(|parts|, i requires 0 <= i < |parts| => At(w, parts[i]))
  }

  function Created(w: World, a: nat, o: Obj, r: Ref): World {
    Put(w.(objs := w.objs[r := o]), a, Val.Ref(r))
  }

  /** The stack cut or filled with nil to n slots above the globals. */
  function Resized(stack: seq<Val>, n: nat): seq<Val> {
    if n + 1 <= |stack| then stack[..n + 1] else stack + seq(n + 1 - |stack|, _ => Plain)
  }

  ghost predicate Cut(w0: World, w1: World, n: nat) {
    && w1 == w0.(objs := w1.objs) && w0.running in w0.objs && w0.running in w1.objs
    && w1.objs[w0.running] == w0.objs[w0.running].(fields := Resized(Stack(w0), n))
    && (forall r :: Live(w0, r) && r != w0.running ==> r in w0.objs && r in w1.objs && Intact(w0.objs, w1.objs, r))
    && forall u :: u in w1.objs && IsOpen(w1.objs[u]) && w1.objs[u].slot.thread == w0.running ==> w1.objs[u].slot.i <= n
  }

  /** What the collector may do: free what cannot be reached, and close upvalues of stacks it frees. */
  ghost predicate Collected(w0: World, w1: World) {
    w1 == w0.(objs := w1.objs) && forall r :: Live(w0, r) ==> r in w0.objs && r in w1.objs && Intact(w0.objs, w1.objs, r)
  }

  /** What an operation does to the heap the program sees; the collector's phase and colours play no part. */
  ghost predicate Allowed(op: Op, w0: World, w1: World) {
    match op
    case Move(a, b) => w1 == Put(w0, a, At(w0, b))
    case Load(a, b, i) => w1 == Put(w0, a, Part(w0, b, i))
    case Store(b, i, a) => w1 == StoredIn(w0, b, i, At(w0, a))
    case SetTop(n) => Cut(w0, w1, n)
    case New(a, kind, parts, r) =>
      w1 == if CanBe(kind, parts) && r !in w0.objs then Created(w0, a, Obj(kind, Parts(w0, parts), Closed, 0), r) else w0
    case Str(a, h, r) =>
      if r in w0.objs then w1 == if w0.objs[r].kind == KString then Put(w0, a, Val.Ref(r)) else w0
      else r in w1.objs && w1 == Created(w0, a, Obj(KString, [], Closed, w1.objs[r].bucket), r)
    case Upval(a, i, r) => Captured(w0, w1, a, i, r)
    case Resume(b) =>
      var v := At(w0, b);
      w1 == if v.Ref? && v.r in w0.objs && w0.objs[v.r].kind == KThread then w0.(running := v.r) else w0
    case Anchor(h, basic) => w1 == w0.(errfunc := At(w0, h), mt := Parts(w0, basic))
    case Registry(a) => w1 == Put(w0, a, w0.registry)
    case Collect => Collected(w0, w1)
    case FullCollect => Collected(w0, w1) && forall r :: r in w1.objs ==> Live(w0, r) || (r in w0.objs && w0.objs[r].kind == KString)
  }

  /** The slot gets the only upvalue that stands for slot i. */
  ghost predicate Captured(w0: World, w1: World, a: nat, i: nat, r: Ref) {
    if i >= |Stack(w0)| || a >= |Stack(w0)| || r in w0.objs then w1 == w0
    else
      var u := At(w1, a);
      var o := Obj(KUpval, [], Slot(w0.running, i), 0);
      && u.Ref? && w1 == Put(if u.r in w0.objs then w0 else w0.(objs := w0.objs[r := o]), a, u)
      && (u.r !in w0.objs ==> u.r == r)
      && (forall v :: v in w1.objs && w1.objs[v].kind == KUpval && w1.objs[v].slot == Slot(w0.running, i) <==> v == u.r)
  }

  // ---------------------------------------------------------------------------
  // One operation
  // ---------------------------------------------------------------------------

  /** What the program has in its hands is reachable, so it is there and alive. */
  lemma InHand(g: GlobalState)
    requires g.Inv()
    ensures Standing(Seen(g)) && RootsOf(Seen(g)) == g.Roots()
    ensures g.running in g.objs && g.objs[g.running].kind == KThread && g.Held(Val.Ref(g.running)) && |Stack(Seen(g))| > 0
    ensures forall b: nat :: g.Held(At(Seen(g), b))
    ensures g.Held(g.registry) && Live(Seen(g), g.running)
  {
    hide GlobalState.Phase, FixedOnly, PaintAt, ClosedSet, Reachable;
    var w := Seen(g);
    assert HomeAt(g.Gs(), g.running);
    forall u | u in g.objs && IsOpen(g.objs[u]) ensures g.objs[u].slot.thread in g.objs && g.objs[g.objs[u].slot.thread].kind == KThread {
      assert HomeAt(g.Gs(), u);
    }
    SoundReachable(g.Gs());
    RefsJoin([Val.Ref(g.mainthread), g.registry], [Val.Ref(g.running), g.errfunc] + g.mt);
    RefsJoin([Val.Ref(g.running), g.errfunc], g.mt);
    RefListed([Val.Ref(g.running), g.errfunc], 0);
    RootReachable(g.objs, g.Roots(), g.running);
    forall b: nat ensures g.Held(At(w, b)) {
      var v := At(w, b);
      if v.Ref? {
        assert Edge(g.objs, g.running, v.r);
        EdgeReachable(g.objs, g.Roots(), g.running, v.r);
      }
    }
    if g.registry.Ref? {
      RefListed([Val.Ref(g.mainthread), g.registry], 1);
      RootReachable(g.objs, g.Roots(), g.registry.r);
    }
  }

  lemma HeldLives(g: GlobalState, v: Val)
    requires g.Inv() && g.Held(v)
    ensures v.Ref? ==> v.r in Alive(g.Gs()) && v.r in g.objs
    ensures v.Ref? ==> forall i :: 0 <= i < |FieldsOf(g.objs, v.r)| ==> g.Held(FieldsOf(g.objs, v.r)[i])
  {
    hide GlobalState.Phase, FixedOnly, PaintAt, ClosedSet, Reachable, Shape;
    SoundReachable(g.Gs());
    if v.Ref? {
      forall i | 0 <= i < |FieldsOf(g.objs, v.r)| ensures g.Held(FieldsOf(g.objs, v.r)[i]) {
        var c := FieldsOf(g.objs, v.r)[i];
        if c.Ref? {
          assert Edge(g.objs, v.r, c.r);
          EdgeReachable(g.objs, g.Roots(), v.r, c.r);
        }
      }
    }
  }

  method PutSlot(g: GlobalState, a: nat, v: Val)
    requires g.Inv() && (v.Ref? ==> v.r in Alive(g.Gs()))
    modifies g`objs
    ensures g.Inv() && Seen(g) == Put(old(Seen(g)), a, v)
  {
    hide GlobalState.Inv, GlobalState.Held, Alive;
    InHand(g);
    if a < |g.objs[g.running].fields| {
      g.SetSlot(g.running, a, v);
    }
  }

  method PutHeld(g: GlobalState, a: nat, v: Val)
    requires g.Inv() && g.Held(v)
    modifies g`objs
    ensures g.Inv() && Seen(g) == Put(old(Seen(g)), a, v)
  {
    hide GlobalState.Inv, GlobalState.Held, Alive;
    HeldLives(g, v);
    PutSlot(g, a, v);
  }

  method ReadSlot(g: GlobalState, b: nat) returns (v: Val)
    requires g.Inv()
    ensures g.Held(v) && v == At(Seen(g), b)
  {
    hide GlobalState.Inv, GlobalState.Held;
    InHand(g);
    v := if b < |g.objs[g.running].fields| then g.objs[g.running].fields[b] else Plain;
    assert v == At(Seen(g), b);
  }

  method DoLoad(g: GlobalState, a: nat, b: nat, i: nat)
    requires g.Inv()
    modifies g`objs
    ensures g.Inv() && Seen(g) == Put(old(Seen(g)), a, Part(old(Seen(g)), b, i))
  {
    hide GlobalState.Inv, Alive;
    var o := ReadSlot(g, b);
    HeldLives(g, o);
    var v := if o.Ref? && i < |FieldsOf(g.objs, o.r)| then FieldsOf(g.objs, o.r)[i] else Plain;
    PutHeld(g, a, v);
  }

  method DoStore(g: GlobalState, b: nat, i: nat, a: nat)
    requires g.Inv()
    modifies g`objs, g`marked, g`gray, g`grayagain
    ensures g.Inv() && Seen(g) == StoredIn(old(Seen(g)), b, i, At(old(Seen(g)), a))
  {
    hide GlobalState.Inv, GlobalState.Held, Alive;
    var o := ReadSlot(g, b);
    var v := ReadSlot(g, a);
    HeldLives(g, o);
    if o.Ref? && i < |FieldsOf(g.objs, o.r)| {
      if g.objs[o.r].kind == KUpval {
        UpvalSlot(g, o.r);
        assert !IsOpen(g.objs[o.r]) ==> g.objs[o.r].fields[0 := v] == [v];
        g.SetUpval(o.r, v);
      } else {
        g.SetField(o.r, i, v);
      }
    }
  }

  lemma UpvalSlot(g: GlobalState, u: Ref)
    requires g.Inv() && u in g.objs && g.objs[u].kind == KUpval
    ensures |FieldsOf(g.objs, u)| == 1
    ensures !IsOpen(g.objs[u]) ==> g.objs[u].slot == Closed && |g.objs[u].fields| == 1
    ensures IsOpen(g.objs[u]) ==> var s := g.objs[u].slot; s.thread in g.objs && s.i < |g.objs[s.thread].fields|
  {
    hide GlobalState.Phase, FixedOnly;
    UpvalShape(g.Gs(), u);
  }

  method DoSetTop(g: GlobalState, n: nat)
    requires g.Inv()
    modifies g`objs, g`marked, g`gray, g`rootgc, g`sweepgc, g`openupval, g`uvhead
    ensures g.Inv() && Cut(old(Seen(g)), Seen(g), n)
  {
    hide GlobalState.Inv, GlobalState.Held, Alive, SameValues, Swept, CursorKept, Sound, Live;
    InHand(g);
    ghost var w0 := Seen(g);
    ThreadLists(g, g.running);
    ghost var g0 := g.Gs();
    g.LuaFClose(g.running, n + 1);
    ClosedKeeps(g0, g.Gs(), w0, Seen(g));
    InHand(g);
    ThreadLists(g, g.running);
    ghost var w1 := Seen(g);
    var stack := g.objs[g.running].fields;
    var slots := Resized(stack, n)[1..];
    assert Resized(stack, n) == [stack[0]] + slots;
    forall v | v in slots ensures g.Held(v) {
      var k :| 0 <= k < |slots| && slots[k] == v;
      assert v == At(w1, k + 1);
    }
    g.SetStack(g.running, slots);
    CutKeeps(w0, w1, Seen(g), n);
  }

  lemma ThreadLists(g: GlobalState, t: Ref)
    requires g.Inv() && t in g.objs && g.objs[t].kind == KThread
    ensures t in g.openupval && Sound(g.Gs())
    ensures forall u :: u in g.objs && IsOpen(g.objs[u]) && g.objs[u].slot.thread == t ==> g.objs[u].slot.i < |g.objs[t].fields|
  {
    hide GlobalState.Phase, FixedOnly, PaintAt, ClosedSet;
    assert HomeAt(g.Gs(), t);
    FieldsKept(g.Gs(), t);
  }

  lemma ClosedKeeps(g0: G, g1: G, w0: World, w1: World)
    requires Sound(g0) && SameValues(g0, g1) && w0.objs == g0.objs && w1 == w0.(objs := g1.objs) && RootsOf(w0) == g0.roots
    ensures Collected(w0, w1)
  {
    hide Shape, PaintAt;
    SoundReachable(g0);
  }

  /** Closing and then cutting. */
  lemma CutKeeps(w0: World, w1: World, w2: World, n: nat)
    requires Collected(w0, w1) && w0.running in w0.objs && w0.objs[w0.running].kind == KThread && Live(w0, w0.running)
    requires w2 == w1.(objs := w1.objs[w1.running := w1.objs[w1.running].(fields := Resized(Stack(w1), n))]) && w1.running in w1.objs
    requires forall u :: u in w1.objs && IsOpen(w1.objs[u]) && w1.objs[u].slot.thread == w1.running ==>
               w1.objs[u].slot.i < n + 1 && w1.objs[u].slot.i < |Stack(w1)|
    ensures Cut(w0, w2, n)
  {
    hide Live, Reachable;
    forall r | Live(w0, r) && r != w0.running ensures r in w0.objs && r in w2.objs && Intact(w0.objs, w2.objs, r) {
      assert Intact(w0.objs, w1.objs, r);
    }
  }

  method DoNew(g: GlobalState, a: nat, kind: Kind, parts: seq<nat>, r: Ref)
    requires g.Inv()
    modifies g`objs, g`marked, g`rootgc, g`sweepgc, g`openupval
    ensures g.Inv() && Allowed(New(a, kind, parts, r), old(Seen(g)), Seen(g))
  {
    hide GlobalState.Inv, GlobalState.Held, Alive;
    InHand(g);
    if CanBe(kind, parts) && r !in g.objs {
      var fields := Parts(World(g.objs, g.mainthread, g.running, g.registry, g.errfunc, g.mt), parts);
      g.NewObject(r, kind, fields);
      PutSlot(g, a, Val.Ref(r));
    }
  }

  method DoStr(g: GlobalState, a: nat, h: nat, r: Ref)
    requires g.Inv()
    modifies g`objs, g`marked, g`strt
    ensures g.Inv() && Allowed(Str(a, h, r), old(Seen(g)), Seen(g))
  {
    hide GlobalState.Inv, GlobalState.Held, Alive;
    if r !in g.objs {
      Buckets(g);
      g.NewString(r, h % |g.strt|);
      InHand(g);
      PutSlot(g, a, Val.Ref(r));
    } else if g.objs[r].kind == KString {
      g.FindString(r);
      PutSlot(g, a, Val.Ref(r));
    }
  }

  lemma Buckets(g: GlobalState)
    requires g.Inv()
    ensures |g.strt| > 0
  {
  }

  method DoUpval(g: GlobalState, a: nat, i: nat, r: Ref)
    requires g.Inv()
    modifies g`objs, g`marked, g`openupval, g`uvhead
    ensures g.Inv() && Captured(old(Seen(g)), Seen(g), a, i, r)
  {
    hide GlobalState.Inv, GlobalState.Held, Alive;
    InHand(g);
    var stack := g.objs[g.running].fields;
    if i < |stack| && a < |stack| && r !in g.objs {
      var u := g.LuaFFindUpval(g.running, i, r);
      PutSlot(g, a, Val.Ref(u));
    }
  }

  method DoResume(g: GlobalState, b: nat)
    requires g.Inv()
    modifies g`running, g`errfunc, g`mt
    ensures g.Inv() && Allowed(Resume(b), old(Seen(g)), Seen(g))
  {
    hide GlobalState.Inv, GlobalState.Held, Alive;
    var v := ReadSlot(g, b);
    HeldLives(g, v);
    if v.Ref? && g.objs[v.r].kind == KThread {
      RootsHeld(g);
      g.SetRoots(v.r, g.errfunc, g.mt);
    }
  }

  lemma RootsHeld(g: GlobalState)
    requires g.Inv()
    ensures g.Held(g.errfunc) && forall v :: v in g.mt ==> g.Held(v)
  {
    hide GlobalState.Inv, Reachable;
    RefsJoin([Val.Ref(g.mainthread), g.registry], [Val.Ref(g.running), g.errfunc] + g.mt);
    RefsJoin([Val.Ref(g.running), g.errfunc], g.mt);
    if g.errfunc.Ref? {
      RefListed([Val.Ref(g.running), g.errfunc], 1);
      RootReachable(g.objs, g.Roots(), g.errfunc.r);
    }
    forall v | v in g.mt ensures g.Held(v) {
      if v.Ref? { RootReachable(g.objs, g.Roots(), v.r); }
    }
  }

  method DoAnchor(g: GlobalState, h: nat, basic: seq<nat>)
    requires g.Inv()
    modifies g`running, g`errfunc, g`mt
    ensures g.Inv() && Allowed(Anchor(h, basic), old(Seen(g)), Seen(g))
  {
    hide GlobalState.Inv, GlobalState.Held, Alive;
    InHand(g);
    var w := World(g.objs, g.mainthread, g.running, g.registry, g.errfunc, g.mt);
    assert w == Seen(g);
    g.SetRoots(g.running, At(w, h), Parts(w, basic));
  }

  method DoCollect(g: GlobalState)
    requires g.Inv()
    modifies g`objs, g`marked, g`currentwhite, g`gcstate, g`gray, g`grayagain, g`rootgc, g`sweepgc,
             g`strt, g`sweepstrgc, g`openupval, g`uvhead
    ensures g.Inv() && Collected(old(Seen(g)), Seen(g))
  {
    hide GlobalState.Inv, GlobalState.Held, GlobalState.Bounded, Alive, Swept, Preserved, Collected, SameFixed;
    InHand(g);
    AllBounded(g);
    ghost var g0, w0 := g.Gs(), Seen(g);
    g.SingleStep(g.objs.Keys);
    CollectedFrom(g0, g.Gs(), w0, Seen(g));
  }

  lemma CollectedFrom(g0: G, g1: G, w0: World, w1: World)
    requires Preserved(g0, g1) && w0.objs == g0.objs && w1 == w0.(objs := g1.objs) && RootsOf(w0) == g0.roots
    ensures Collected(w0, w1)
  {
  }

  /** Everything allocated bounds what a mark phase marks. */
  lemma AllBounded(g: GlobalState)
    requires g.Inv()
    ensures g.gcstate in {GCSpause, GCSpropagate} ==> g.Bounded(g.objs.Keys)
  {
    hide Shape, FixedOnly, Tricolour, Settled;
    if g.gcstate == GCSpause { CleanAlive(g.Gs()); }
  }

  lemma CleanAlive(g: G)
    requires Sound(g) && Clean(g)
    ensures Alive(g) == g.objs.Keys
  {
    hide Shape;
    forall r | r in g.objs ensures r in Alive(g) { assert Fresh(g, r); }
  }

  method DoFullCollect(g: GlobalState)
    requires g.Inv()
    modifies g`objs, g`marked, g`currentwhite, g`gcstate, g`gray, g`grayagain, g`rootgc, g`sweepgc,
             g`strt, g`sweepstrgc, g`openupval, g`uvhead
    ensures g.Inv() && Allowed(FullCollect, old(Seen(g)), Seen(g))
  {
    hide GlobalState.Inv, GlobalState.Held, Alive, Swept, Preserved, Collected;
    InHand(g);
    FixedKinds(g);
    ghost var g0, w0 := g.Gs(), Seen(g);
    g.LuaCFullGc();
    CollectedFrom(g0, g.Gs(), w0, Seen(g));
  }

  lemma FixedKinds(g: GlobalState)
    requires g.Inv()
    ensures g.marked.Keys == g.objs.Keys
    ensures forall r :: r in g.objs && g.marked[r].fixed ==> g.objs[r].kind == KString || Live(Seen(g), r)
  {
    hide GlobalState.Phase, ClosedSet, PaintAt;
    forall r | r in g.objs && g.marked[r].fixed ensures g.objs[r].kind == KString || Live(Seen(g), r) {
      if r == g.mainthread {
        RefListed([Val.Ref(g.mainthread), g.registry] + ([Val.Ref(g.running), g.errfunc] + g.mt), 0);
        RootReachable(g.objs, RootsOf(Seen(g)), r);
      }
    }
  }

  /** One operation, in whatever phase the collector is. */
  method Step(g: GlobalState, op: Op)
    requires g.Inv()
    modifies g
    ensures g.Inv() && Allowed(op, old(Seen(g)), Seen(g))
  {
    hide GlobalState.Inv, GlobalState.Held;
    match op
    case Move(a, b) =>
      var v := ReadSlot(g, b);
      PutHeld(g, a, v);
    case Load(a, b, i) => DoLoad(g, a, b, i);
    case Store(b, i, a) => DoStore(g, b, i, a);
    case SetTop(n) => DoSetTop(g, n);
    case New(a, kind, parts, r) => DoNew(g, a, kind, parts, r);
    case Str(a, h, r) => DoStr(g, a, h, r);
    case Upval(a, i, r) => DoUpval(g, a, i, r);
    case Resume(b) => DoResume(g, b);
    case Anchor(h, basic) => DoAnchor(g, h, basic);
    case Registry(a) =>
      InHand(g);
      PutHeld(g, a, g.registry);
    case Collect => DoCollect(g);
    case FullCollect => DoFullCollect(g);
  }

  // ---------------------------------------------------------------------------
  // Whole runs
  // ---------------------------------------------------------------------------

  /** A run seen from the program: every operation does what it should, and nothing reachable is ever missing. */
  ghost predicate Run(ops: seq<Op>, trace: seq<World>) {
    && |trace| == |ops| + 1
    && (forall k :: 0 <= k < |ops| ==> Allowed(ops[k], trace[k], trace[k + 1]))
    && forall k :: 0 <= k < |trace| ==> Standing(trace[k])
  }

  lemma Longer(ops: seq<Op>, k: nat, trace: seq<World>, w: World)
    requires k < |ops| && Run(ops[..k], trace) && Allowed(ops[k], trace[k], w) && Standing(w)
    ensures Run(ops[..k + 1], trace + [w])
  {
    hide Allowed, Standing;
    assert ops[..k + 1] == ops[..k] + [ops[k]];
  }

  lemma Started(g: GlobalState)
    requires g.Inv()
    ensures Standing(Seen(g)) && Run([], [Seen(g)])
  {
    hide GlobalState.Inv, Standing;
    InHand(g);
  }

  /** Any interleaving of program and collector, from any state between two steps. */
  method Exec(g: GlobalState, ops: seq<Op>) returns (ghost trace: seq<World>)
    requires g.Inv()
    modifies g
    ensures g.Inv() && Run(ops, trace) && |trace| == |ops| + 1 && trace[0] == old(Seen(g)) && trace[|ops|] == Seen(g)
  {
    hide *;
    Started(g);
    trace := [Seen(g)];
    assert ops[..0] == [];
    for k := 0 to |ops|
      invariant g.Inv() && Run(ops[..k], trace) && |trace| == k + 1 && trace[0] == old(Seen(g)) && trace[k] == Seen(g)
    {
      Step(g, ops[k]);
      Started(g);
      Longer(ops, k, trace, Seen(g));
      trace := trace + [Seen(g)];
    }
    assert ops[..|ops|] == ops;
  }

  /** A store that names an object through a slot. */
  ghost predicate Names(op: Op, w: World, r: Ref) {
    op.Store? && At(w, op.b) == Val.Ref(r)
  }

  /** Stacks are written by every operation, and open upvalues are slots of stacks; all else is plain memory. */
  predicate Memory(w: World, r: Ref) {
    r in w.objs && w.objs[r].kind != KThread && !IsOpen(w.objs[r])
  }

  lemma KeptStep(op: Op, w0: World, w1: World, r: Ref)
    requires Allowed(op, w0, w1) && Standing(w0) && Live(w0, r) && Memory(w0, r) && !Names(op, w0, r)
    ensures r in w1.objs && w1.objs[r] == w0.objs[r]
  {
    hide Live, Reachable;
  }

  /** Memory the program can reach all the time changes by the stores that name it, and by nothing else. */
  lemma {:induction false} Kept(ops: seq<Op>, trace: seq<World>, r: Ref, n: nat)
    requires Run(ops, trace) && n <= |ops| && Memory(trace[0], r)
    requires forall k :: 0 <= k < n ==> Live(trace[k], r) && !Names(ops[k], trace[k], r)
    ensures r in trace[n].objs && trace[n].objs[r] == trace[0].objs[r]
  {
    hide Allowed, Live, Names, Standing;
    if n > 0 {
      Kept(ops, trace, r, n - 1);
      KeptStep(ops[n - 1], trace[n - 1], trace[n], r);
    }
  }

  lemma StoreFirst(w0: World, w1: World, b: nat, i: nat, a: nat, r: Ref)
    requires Allowed(Store(b, i, a), w0, w1) && At(w0, b) == Val.Ref(r) && Memory(w0, r) && i < |w0.objs[r].fields|
    ensures Memory(w1, r) && i < |w1.objs[r].fields| && w1.objs[r].fields[i] == At(w0, a)
  {
  }

  lemma LoadLast(w0: World, w1: World, a: nat, b: nat, i: nat, r: Ref)
    requires Allowed(Load(a, b, i), w0, w1) && At(w0, b) == Val.Ref(r) && Memory(w0, r) && i < |w0.objs[r].fields|
    requires a < |Stack(w0)| && w0.running in w0.objs
    ensures At(w1, a) == w0.objs[r].fields[i]
  {
  }

  /** A value stored is the value loaded, however many collector steps, collections, allocations and other
      stores come between the two. */
  lemma StoredThenLoaded(ops: seq<Op>, trace: seq<World>, n: nat, r: Ref)
    requires Run(ops, trace) && |ops| == n + 2 && ops[0].Store? && ops[n + 1].Load? && ops[n + 1].i == ops[0].i
    requires At(trace[0], ops[0].b) == Val.Ref(r) && Memory(trace[0], r) && ops[0].i < |trace[0].objs[r].fields|
    requires At(trace[n + 1], ops[n + 1].b) == Val.Ref(r) && ops[n + 1].a < |Stack(trace[n + 1])|
    requires forall k :: 1 <= k <= n ==> Live(trace[k], r) && !Names(ops[k], trace[k], r)
    ensures At(trace[n + 2], ops[n + 1].a) == At(trace[0], ops[0].a)
  {
    hide Allowed, Live, Names, At;
    StoreFirst(trace[0], trace[1], ops[0].b, ops[0].i, ops[0].a, r);
    assert Run(ops[1..], trace[1..]) by {
      forall k | 0 <= k < |ops[1..]| ensures Allowed(ops[1..][k], trace[1..][k], trace[1..][k + 1]) {
        assert Allowed(ops[k + 1], trace[k + 1], trace[k + 2]);
      }
    }
    Kept(ops[1..], trace[1..], r, n);
    assert Standing(trace[n + 1]);
    LoadLast(trace[n + 1], trace[n + 2], ops[n + 1].a, ops[n + 1].b, ops[n + 1].i, r);
  }
}
