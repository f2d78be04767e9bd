/** The incremental collector and the write barriers (lgc.c), with the parts of lfunc.c it relies on. */
module LuaGc {
  import opened GcHeap

  datatype GcState = GCSpause | GCSpropagate | GCSsweepstring | GCSsweep | GCSfinalize

  const GCSWEEPMAX: nat := 40

  /** What each phase adds to the invariant: `k` buckets and `n` objects of the root list are swept. */
  ghost predicate PhaseOf(g: G, m: M, phase: GcState, k: nat, n: nat, early: set<Ref>) {
    match phase
    case GCSpause => Clean(g)
    case GCSfinalize => Clean(g)
    case GCSpropagate => Marking(m, g.cw, {}, g.objs.Keys, g.objs.Keys) && early <= Marked(m)
    case GCSsweepstring => k < |g.strt| && StringsDone(g, k) && n == 0
    case GCSsweep => StringsDone(g, |g.strt|) && n <= |g.rootgc| && RootsDone(g, n)
  }

  ghost predicate ThreadsOf(g: G, main: Ref, running: Ref) {
    main in g.objs && g.objs[main].kind == KThread && running in g.objs && g.objs[running].kind == KThread
  }

  ghost predicate InvOf(g: G, m: M, phase: GcState, k: nat, n: nat, main: Ref, running: Ref, early: set<Ref>) {
    Sound(g) && FixedOnly(g, main) && ThreadsOf(g, main, running) && |g.strt| > 0 && PhaseOf(g, m, phase, k, n, early)
  }

  class GlobalState {
    var objs: Objs
    var marked: Marks
    var currentwhite: Mark
    var gcstate: GcState
    var gray: seq<Ref>
    var grayagain: seq<Ref>
    var rootgc: seq<Ref>                 // all objects but strings and open upvalues
    var sweepgc: nat                     // how many objects of rootgc precede *sweepgc
    var strt: seq<seq<Ref>>              // the buckets of the string table
    var sweepstrgc: nat
    var openupval: map<Ref, seq<Ref>>    // the open upvalues of each thread
    var uvhead: set<Ref>                 // all open upvalues
    var mainthread: Ref
    var running: Ref                     // the thread L that calls the collector
    var registry: Val
    var errfunc: Val
    var mt: seq<Val>                     // metatables of the basic types

    /** lua_newstate: the main thread is fixed and is the only object. */
    constructor (main: Ref, buckets: nat)
      requires buckets > 0
      ensures Inv() && gcstate == GCSpause && objs.Keys == {main}
    {
      objs := map[main := Obj(KThread, [Plain], Closed, 0)];
      marked := map[main := Mark(true, false, false, true)];
      currentwhite := Mark(true, false, false, true);
      gcstate, gray, grayagain := GCSpause, [], [];
      rootgc, sweepgc, strt, sweepstrgc := [main], 0, seq(buckets, _ => []), 0;
      openupval, uvhead := map[main := []], {};
      mainthread, running, registry, errfunc, mt := main, main, Plain, Plain, [];
      new;
      assert rootgc[0] == main;
      NewState(Gs(), main);
    }

    ghost function Mk(): M
      reads this
    {
      M(objs, marked, gray, grayagain)
    }

    // -------------------------------------------------------------------------
    // Marking
    // -------------------------------------------------------------------------

    /** reallymarkobject */
    method ReallyMarkObject(o: Ref, ghost X: set<Ref>, ghost E: set<Ref>, ghost P: set<Ref>)
      requires Marking(Mk(), currentwhite, X, E, P) && o in objs && o in P && IsWhite(marked[o]) && X <= marked.Keys
      requires forall r :: r in X ==> NonWhite(marked, r)
      modifies this`marked, this`gray
      ensures Marking(Mk(), currentwhite, X, E, P) && Grown(old(Mk()), Mk()) && NonWhite(marked, o)
      decreases Whites(marked), 1
    {
      ghost var m0 := Mk();
      match objs[o].kind {
        case KString =>
          marked := marked[o := White2Gray(marked[o])];
          BeginMark(m0, Mk(), currentwhite, X, E, P, o, false);
          assert ColourAt(m0, currentwhite, o) && LeafAt(objs, o);
          FinishLeaf(Mk(), currentwhite, X, E, P, o);
        case KUserdata =>
          MarkUserdata(o, X, E, P);
        case KUpval =>
          MarkUpval(o, X, E, P);
        case _ =>
          marked := marked[o := White2Gray(marked[o])];
          gray := [o] + gray;
          PushMark(m0, Mk(), currentwhite, X, E, P, o);
      }
    }

    /** Userdata are never gray. */
    method MarkUserdata(o: Ref, ghost X: set<Ref>, ghost E: set<Ref>, ghost P: set<Ref>)
      requires Marking(Mk(), currentwhite, X, E, P) && o in objs && o in P && IsWhite(marked[o]) && X <= marked.Keys
      requires (forall r :: r in X ==> NonWhite(marked, r)) && objs[o].kind == KUserdata
      modifies this`marked, this`gray
      ensures Marking(Mk(), currentwhite, X, E, P) && Grown(old(Mk()), Mk()) && NonWhite(marked, o)
      decreases Whites(marked), 0
    {
      ghost var m0 := Mk();
      marked := marked[o := Gray2Black(White2Gray(marked[o]))];
      ghost var m1 := Mk();
      BeginMark(m0, m1, currentwhite, X, E, P, o, true);
      MarkFields(o, X + {o}, E, P);
      EndMark(Mk(), Mk(), currentwhite, X, E, P, o);
      GrownTrans(m0, m1, Mk());
    }

    /** Open upvalues are never black. */
    method MarkUpval(o: Ref, ghost X: set<Ref>, ghost E: set<Ref>, ghost P: set<Ref>)
      requires Marking(Mk(), currentwhite, X, E, P) && o in objs && o in marked && o in P && IsWhite(marked[o]) && X <= marked.Keys
      requires (forall r :: r in X ==> NonWhite(marked, r)) && objs[o].kind == KUpval
      modifies this`marked, this`gray
      ensures Marking(Mk(), currentwhite, X, E, P) && Grown(old(Mk()), Mk()) && NonWhite(marked, o)
      decreases Whites(marked), 0
    {
      hide Marking, Grown;
      ghost var m0 := Mk();
      marked := marked[o := White2Gray(marked[o])];
      ghost var m1 := Mk();
      BeginUpval(m0, m1, currentwhite, X, E, P, o);
      MarkFields(o, X + {o}, E, P);
      ghost var m2 := Mk();
      GrownGray(m0, m1, m2, o);
      if objs[o].slot == Closed {
        marked := marked[o := Gray2Black(marked[o])];
      }
      EndMark(m2, Mk(), currentwhite, X, E, P, o);
      EndUpval(m0, m2, Mk(), o);
    }

    /** markvalue and markobject */
    method MarkValue(v: Val, ghost X: set<Ref>, ghost E: set<Ref>, ghost P: set<Ref>)
      requires Marking(Mk(), currentwhite, X, E, P) && (v.Ref? ==> v.r in objs && v.r in P) && X <= marked.Keys
      requires forall r :: r in X ==> NonWhite(marked, r)
      modifies this`marked, this`gray
      ensures Marking(Mk(), currentwhite, X, E, P) && Grown(old(Mk()), Mk()) && (v.Ref? ==> NonWhite(marked, v.r))
      decreases Whites(marked), 2
    {
      if v.Ref? {
        if IsWhite(marked[v.r]) {
          ReallyMarkObject(v.r, X, E, P);
        }
      }
    }

    /** Marks all values in an object (traversetable, traverseclosure, traverseproto, traversestack). */
    method MarkFields(o: Ref, ghost X: set<Ref>, ghost E: set<Ref>, ghost P: set<Ref>)
      requires Marking(Mk(), currentwhite, X, E, P) && o in objs && o in P && X <= marked.Keys
      requires forall r :: r in X ==> NonWhite(marked, r)
      modifies this`marked, this`gray
      ensures Marking(Mk(), currentwhite, X, E, P) && Grown(old(Mk()), Mk())
      ensures forall v :: v in FieldsOf(objs, o) ==> v.Ref? ==> NonWhite(marked, v.r)
      decreases Whites(marked), 3
    {
      hide Marking, Grown, NonWhite, FieldsOf, Marked, RefsOf, Whites;
      ghost var m0 := Mk();
      GrownSame(m0, X);
      MarkedBounds(m0, currentwhite, X, E, P, o);
      var fields := FieldsOf(objs, o);
      var i := 0;
      while i < |fields|
        invariant 0 <= i <= |fields| && objs == m0.objs && grayagain == m0.again && X <= marked.Keys
        invariant Marking(Mk(), currentwhite, X, E, P) && Grown(m0, Mk()) && forall r :: r in X ==> NonWhite(marked, r)
        invariant RefsOf(fields[..i]) <= Marked(Mk())
      {
        ghost var m1 := Mk();
        GrownWhites(m0, m1);
        MarkValue(fields[i], X, E, P);
        GrownMore(m0, m1, Mk(), X, fields, i);
        i := i + 1;
      }
      AllMarked(fields, Mk());
    }

    /** propagatemark */
    method PropagateMark(ghost E: set<Ref>, ghost P: set<Ref>)
      requires Marking(Mk(), currentwhite, {}, E, P) && gray != []
      modifies this`marked, this`gray, this`grayagain
      ensures Marking(Mk(), currentwhite, {}, E, P) && GrownOrBlacker(old(Mk()), Mk()) && Pending(Mk()) < old(Pending(Mk()))
    {
      ghost var m0 := Mk();
      var o := gray[0];
      assert ListAt(m0, o);
      gray := gray[1..];
      if objs[o].kind == KThread {
        grayagain := [o] + grayagain;
      } else {
        marked := marked[o := Gray2Black(marked[o])];
      }
      PopMark(m0, Mk(), currentwhite, E, P, o);
      ghost var m1 := Mk();
      MarkFields(o, {o}, E, P);
      PendingLess(m0, m1, Mk(), o);
      assert Marking(Mk(), currentwhite, {} + {o}, E, P) by { assert {} + {o} == {o}; }
      EndMark(Mk(), Mk(), currentwhite, {}, E, P, o);
    }

    // -------------------------------------------------------------------------
    // Sweeping
    // -------------------------------------------------------------------------

    /** Marked when a cycle starts. */
    function Early(): seq<Val>
      reads this`mainthread, this`registry
    {
      [Val.Ref(mainthread), registry]
    }

    /** Marked again in the atomic phase: the running thread, the error handler and the basic metatables. */
    function Late(): seq<Val>
      reads this`running, this`errfunc, this`mt
    {
      [Val.Ref(running), errfunc] + mt
    }

    ghost function Roots(): set<Ref>
      reads this`mainthread, this`running, this`registry, this`errfunc, this`mt
    {
      RefsOf(Early() + Late())
    }

    ghost function Gs(): G
      reads this
    {
      G(objs, marked, currentwhite, rootgc, strt, openupval, uvhead, Roots())
    }

    lemma RunningRoot()
      ensures running in Roots()
    {
      RefListed(Early() + Late(), 2);
    }

    /** sweepwholelist on a bucket of the string table. */
    method SweepBucket(h: nat)
      requires Sound(Gs()) && FixedOnly(Gs(), mainthread) && h < |strt|
      modifies this`objs, this`marked, this`strt
      ensures Sound(Gs()) && FixedOnly(Gs(), mainthread) && Swept(old(Gs()), Gs()) && |strt| == |old(strt)|
      ensures forall k :: 0 <= k < |strt[h]| ==> Fresh(Gs(), strt[h][k])
    {
      ghost var g0 := Gs();
      var k := 0;
      while k < |strt[h]|
        invariant |strt| == |g0.strt| && 0 <= k <= |strt[h]|
        invariant Sound(Gs()) && FixedOnly(Gs(), mainthread) && Swept(g0, Gs())
        invariant forall j :: 0 <= j < k ==> Fresh(Gs(), strt[h][j])
        decreases |strt[h]| - k
      {
        ghost var g1 := Gs();
        k := SweepString(h, k);
        SweptTrans(g0, g1, Gs());
      }
    }

    /** sweeplist on one string: next cursor. */
    method SweepString(h: nat, k: nat) returns (next: nat)
      requires Sound(Gs()) && FixedOnly(Gs(), mainthread) && h < |strt| && k < |strt[h]|
      requires forall j :: 0 <= j < k ==> Fresh(Gs(), strt[h][j])
      modifies this`objs, this`marked, this`strt
      ensures Sound(Gs()) && FixedOnly(Gs(), mainthread) && Swept(old(Gs()), Gs()) && |strt| == |old(strt)|
      ensures next <= |strt[h]| && |strt[h]| - next == |old(strt)[h]| - k - 1
      ensures forall j :: 0 <= j < next ==> Fresh(Gs(), strt[h][j])
    {
      hide Sound, FixedOnly, Swept, Fresh, Survives;
      ghost var g1 := Gs();
      var curr := strt[h][k];
      StringInHeap(g1, h, k);
      if Survives(currentwhite, marked[curr]) {
        marked := marked[curr := MakeWhite(currentwhite, marked[curr])];
        StringWhite(g1, Gs(), mainthread, h, k);
        next := k + 1;
      } else {
        strt := strt[h := strt[h][..k] + strt[h][k + 1..]];
        objs, marked := Without(objs, curr), Without(marked, curr);
        StringFreed(g1, Gs(), mainthread, h, k);
        next := k;
      }
    }

    /** sweepwholelist on the open upvalues of a thread. */
    method SweepOpen(t: Ref)
      requires Sound(Gs()) && FixedOnly(Gs(), mainthread) && t in openupval
      modifies this`objs, this`marked, this`openupval, this`uvhead
      ensures Sound(Gs()) && FixedOnly(Gs(), mainthread) && Swept(old(Gs()), Gs()) && OpenShrunk(old(Gs()), Gs(), t)
      ensures forall k :: 0 <= k < |openupval[t]| ==> Fresh(Gs(), openupval[t][k])
      ensures |uvhead| <= |old(uvhead)|
    {
      ghost var g0 := Gs();
      var k := 0;
      assert OpenAt(g0, t, 0);
      while k < |openupval[t]|
        invariant t in openupval && 0 <= k <= |openupval[t]|
        invariant Sound(Gs()) && FixedOnly(Gs(), mainthread) && Swept(g0, Gs()) && OpenShrunk(g0, Gs(), t)
        invariant forall j :: 0 <= j < k ==> Fresh(Gs(), openupval[t][j])
        decreases |openupval[t]| - k
      {
        ghost var g1 := Gs();
        k := SweepUpval(t, k);
        SweptTrans(g0, g1, Gs());
        OpenShrunkTrans(g0, g1, Gs(), t);
      }
      SubsetSize(uvhead, g0.uvhead);
    }

    /** sweeplist on one open upvalue. */
    method SweepUpval(t: Ref, k: nat) returns (next: nat)
      requires Sound(Gs()) && FixedOnly(Gs(), mainthread) && t in openupval && k < |openupval[t]|
      requires forall j :: 0 <= j < k ==> Fresh(Gs(), openupval[t][j])
      modifies this`objs, this`marked, this`openupval, this`uvhead
      ensures Sound(Gs()) && FixedOnly(Gs(), mainthread) && Swept(old(Gs()), Gs()) && OpenShrunk(old(Gs()), Gs(), t)
      ensures next <= |openupval[t]| && |openupval[t]| - next == |old(openupval)[t]| - k - 1
      ensures forall j :: 0 <= j < next ==> Fresh(Gs(), openupval[t][j])
    {
      hide Sound, FixedOnly, Swept, OpenShrunk, Fresh, Survives;
      ghost var g1 := Gs();
      var curr := openupval[t][k];
      OpenInHeap(g1, t, k);
      if Survives(currentwhite, marked[curr]) {
        marked := marked[curr := MakeWhite(currentwhite, marked[curr])];
        UpvalWhite(g1, Gs(), mainthread, t, k);
        next := k + 1;
      } else {
        openupval := openupval[t := openupval[t][..k] + openupval[t][k + 1..]];
        objs, marked, uvhead := Without(objs, curr), Without(marked, curr), uvhead - {curr};
        UpvalFreed(g1, Gs(), mainthread, t, k);
        next := k;
      }
    }

    // -------------------------------------------------------------------------
    // The invariant
    // -------------------------------------------------------------------------

    ghost predicate RootsMarked()
      reads this
    {
      RefsOf(Early()) <= Marked(Mk())
    }

    ghost predicate Phase()
      reads this
    {
      PhaseOf(Gs(), Mk(), gcstate, sweepstrgc, sweepgc, RefsOf(Early()))
    }

    ghost predicate Threads()
      reads this
    {
      ThreadsOf(Gs(), mainthread, running)
    }

    ghost predicate Inv()
      reads this
    {
      InvOf(Gs(), Mk(), gcstate, sweepstrgc, sweepgc, mainthread, running, RefsOf(Early()))
    }

    // -------------------------------------------------------------------------
    // The mark phase
    // -------------------------------------------------------------------------

    /** Marks a list of values. */
    method MarkAll(values: seq<Val>, ghost E: set<Ref>, ghost P: set<Ref>)
      requires Marking(Mk(), currentwhite, {}, E, P) && RefsOf(values) <= P && RefsOf(values) <= objs.Keys
      modifies this`marked, this`gray
      ensures Marking(Mk(), currentwhite, {}, E, P) && Grown(old(Mk()), Mk()) && RefsOf(values) <= Marked(Mk())
    {
      hide Marking, Grown, NonWhite, Marked, RefsOf;
      ghost var m0 := Mk();
      GrownSame(m0, {});
      var i := 0;
      while i < |values|
        invariant 0 <= i <= |values| && objs == m0.objs
        invariant Marking(Mk(), currentwhite, {}, E, P) && Grown(m0, Mk())
        invariant RefsOf(values[..i]) <= Marked(Mk())
      {
        ghost var m1 := Mk();
        if values[i].Ref? { RefListed(values, i); }
        MarkValue(values[i], {}, E, P);
        GrownMore(m0, m1, Mk(), {}, values, i);
        i := i + 1;
      }
      assert values[..i] == values;
    }

    /** markroot */
    method MarkRoot(ghost P: set<Ref>)
      requires Sound(Gs()) && Threads() && Clean(Gs()) && ClosedSet(objs, P) && Roots() <= P
      modifies this`marked, this`gray, this`grayagain, this`gcstate
      ensures Marking(Mk(), currentwhite, {}, objs.Keys, P) && gcstate == GCSpropagate && RootsMarked()
      ensures SameFixed(old(marked), marked)
    {
      hide Sound, Clean, Marking, ClosedSet, RefsOf, SameFixed, Marked;
      gray, grayagain := [], [];
      RootBounds(Gs(), Mk(), P, mainthread, running, Early(), errfunc, mt);
      MarkRootSet(objs[mainthread].fields[0], objs.Keys, P);
      gcstate := GCSpropagate;
    }

    /** The table of globals is marked before the main stack is traversed. */
    method MarkRootSet(globals: Val, ghost E: set<Ref>, ghost P: set<Ref>)
      requires Marking(Mk(), currentwhite, {}, E, P) && RefsOf([globals]) + RefsOf(Early()) + RefsOf(mt) <= P
      requires RefsOf([globals]) + RefsOf(Early()) + RefsOf(mt) <= objs.Keys
      modifies this`marked, this`gray
      ensures Marking(Mk(), currentwhite, {}, E, P) && SameFixed(old(marked), marked) && RootsMarked()
    {
      hide Marking, Grown, RefsOf, SameFixed, Marked;
      ghost var m0 := Mk();
      RefsJoin([Val.Ref(mainthread)], [registry]);
      assert Early() == [Val.Ref(mainthread)] + [registry];
      MarkAll([Val.Ref(mainthread)], E, P);
      ghost var m1 := Mk();
      MarkAll([globals], E, P);
      ghost var m2 := Mk();
      MarkAll([registry], E, P);
      ghost var m3 := Mk();
      MarkAll(mt, E, P);
      GrownChain(m0, m1, m2, m3, Mk());
    }

    /** remarkupvals: open upvalues of threads that may be dead. */
    method RemarkUpvals(ghost P: set<Ref>)
      requires Sound(Gs()) && Marking(Mk(), currentwhite, {}, objs.Keys, P)
      modifies this`marked, this`gray
      ensures Marking(Mk(), currentwhite, {}, objs.Keys - uvhead, P) && Grown(old(Mk()), Mk())
    {
      hide Marking, Shape;
      ghost var m0, g0 := Mk(), Gs();
      var todo := uvhead;
      ghost var E := objs.Keys;
      while todo != {}
        invariant todo <= uvhead && E == objs.Keys - (uvhead - todo) && objs == m0.objs
        invariant Marking(Mk(), currentwhite, {}, E, P) && Grown(m0, Mk())
        decreases todo
      {
        var u :| u in todo;
        HeadPlace(g0, u);
        ghost var m1 := Mk();
        RemarkUpval(u, E, P);
        GrownTrans(m0, m1, Mk());
        E := E - {u};
        todo := todo - {u};
      }
      assert E == objs.Keys - uvhead;
    }

    method RemarkUpval(u: Ref, ghost E: set<Ref>, ghost P: set<Ref>)
      requires Marking(Mk(), currentwhite, {}, E, P) && u in objs && u in marked && IsOpen(objs[u]) && |FieldsOf(objs, u)| == 1
      modifies this`marked, this`gray
      ensures Marking(Mk(), currentwhite, {}, E - {u}, P) && Grown(old(Mk()), Mk())
    {
      if IsGray(marked[u]) {
        FieldInside(objs, P, u, 0);
        MarkValue(FieldsOf(objs, u)[0], {}, E, P);
      }
      assert KindAt(Mk(), u);
      SettleMore(Mk(), currentwhite, E, P, u);
    }

    /** propagateall */
    method PropagateAll(ghost E: set<Ref>, ghost P: set<Ref>)
      requires Marking(Mk(), currentwhite, {}, E, P)
      modifies this`marked, this`gray, this`grayagain
      ensures Marking(Mk(), currentwhite, {}, E, P) && GrownOrBlacker(old(Mk()), Mk()) && gray == []
    {
      ghost var m0 := Mk();
      while gray != []
        invariant Marking(Mk(), currentwhite, {}, E, P) && GrownOrBlacker(m0, Mk())
        decreases Pending(Mk())
      {
        PropagateMark(E, P);
      }
    }

    /** The marking part of atomic. */
    method FinishMarking(ghost P: set<Ref>)
      requires Sound(Gs()) && Roots() <= P && Roots() <= objs.Keys
      requires Marking(Mk(), currentwhite, {}, objs.Keys, P) && RootsMarked()
      modifies this`marked, this`gray, this`grayagain
      ensures Marking(Mk(), currentwhite, {}, {}, P) && gray == [] && Roots() <= Marked(Mk())
      ensures SameFixed(old(marked), marked)
    {
      ghost var g0, E := Gs(), objs.Keys - uvhead;
      forall r | r in objs && IsOpen(objs[r]) ensures r !in E { assert HomeAt(g0, r); }
      RefsJoin(Early(), Late());
      MarkUntilRoots(E, P);
      ghost var m1 := Mk();
      gray, grayagain := grayagain, [];
      Regray(m1, Mk(), currentwhite, E, P);
      PropagateAll({}, P);
    }

    /** Objects caught by barriers or remarkupvals, then the roots again. */
    method MarkUntilRoots(ghost E: set<Ref>, ghost P: set<Ref>)
      requires Sound(Gs()) && RefsOf(Late()) <= P && RefsOf(Late()) <= objs.Keys
      requires Marking(Mk(), currentwhite, {}, objs.Keys, P) && E == objs.Keys - uvhead
      modifies this`marked, this`gray, this`grayagain
      ensures Marking(Mk(), currentwhite, {}, E, P) && gray == []
      ensures RefsOf(Late()) <= Marked(Mk()) && old(Marked(Mk())) <= Marked(Mk()) && SameFixed(old(marked), marked)
    {
      hide Marking, Sound;
      ghost var m0 := Mk();
      RemarkUpvals(P);
      ghost var m1 := Mk();
      GrownMarked(m0, m1);
      PropagateAll(E, P);
      ghost var m2 := Mk();
      MarkAll(Late(), E, P);
      ghost var m3 := Mk();
      GrownMarked(m2, m3);
      PropagateAll(E, P);
      assert Marked(m0) <= Marked(m1) <= Marked(m2) <= Marked(m3) <= Marked(Mk());
    }

    /** atomic: finishes the mark phase in one go and flips the current white. */
    method Atomic(ghost P: set<Ref>)
      requires Sound(Gs()) && FixedOnly(Gs(), mainthread) && Threads() && |strt| > 0
      requires Marking(Mk(), currentwhite, {}, objs.Keys, P) && RootsMarked() && Roots() <= P
      modifies this`marked, this`gray, this`grayagain, this`currentwhite, this`sweepstrgc, this`sweepgc, this`gcstate
      ensures Inv() && gcstate == GCSsweepstring && Alive(Gs()) <= P
      ensures SameFixed(old(marked), marked)
      ensures forall r :: !Fresh(Gs(), r)
    {
      hide Clean, Marking, Shape, ClosedSet;
      ghost var g0 := Gs();
      FinishMarking(P);
      ShapeMarks(g0, Gs());
      FixedStays(g0, Gs(), mainthread);
      FlipWhite(P);
    }

    /** The end of atomic. */
    method FlipWhite(ghost P: set<Ref>)
      requires Shape(Gs()) && FixedOnly(Gs(), mainthread) && Threads() && |strt| > 0
      requires Marking(Mk(), currentwhite, {}, {}, P) && gray == [] && Roots() <= Marked(Mk())
      modifies this`currentwhite, this`sweepstrgc, this`sweepgc, this`gcstate
      ensures Inv() && gcstate == GCSsweepstring && Alive(Gs()) <= P
      ensures forall r :: !Fresh(Gs(), r)
    {
      hide Marking, Shape, Sound, Marked, Alive, FixedOnly, RefsOf, Fresh, StringsDone;
      ghost var g0, m := Gs(), Mk();
      currentwhite := OtherWhite(currentwhite);
      Flip(g0, Gs(), m, P);
      sweepstrgc := 0;
      sweepgc := 0;
      gcstate := GCSsweepstring;
      Flipped(g0, Gs(), mainthread);
    }

    // -------------------------------------------------------------------------
    // Closing upvalues
    // -------------------------------------------------------------------------

    /** Puts an object in front of the root list; *sweepgc stays the object it was, unless it is the head. */
    method LinkRoot(o: Ref)
      modifies this`rootgc, this`sweepgc
      ensures rootgc == [o] + old(rootgc) && sweepgc == Shifted(old(sweepgc))
    {
      rootgc := [o] + rootgc;
      sweepgc := Shifted(sweepgc);
    }

    /** One round of luaF_close: the topmost open upvalue of a thread is closed, or freed if it is dead. */
    method CloseTop(t: Ref)
      requires Inv() && t in openupval && openupval[t] != []
      modifies this`objs, this`marked, this`gray, this`rootgc, this`sweepgc, this`openupval, this`uvhead
      ensures Inv() && gcstate == old(gcstate) && t in openupval && openupval[t] == old(openupval)[t][1..]
      ensures SameValues(old(Gs()), Gs())
      ensures gcstate != GCSpropagate ==> Swept(old(Gs()), Gs()) && old(Alive(Gs())) == Alive(Gs())
      ensures CursorKept(old(rootgc), old(sweepgc), rootgc, sweepgc)
      ensures |uvhead| + |rootgc| - sweepgc <= |old(uvhead)| + |old(rootgc)| - old(sweepgc)
    {
      hide InvOf, Sound, Shape, RefsOf, Swept, SameValues, CursorKept;
      InvShape();
      var u := openupval[t][0];
      ghost var g0 := Gs();
      UpvalPlace(g0, t, 0);
      SameRefl(g0, rootgc, sweepgc);
      if IsDead(currentwhite, marked[u]) {
        AllMarkable();
        FreeTop(t);
      } else if gcstate == GCSpropagate {
        CloseWhileMarking(t);
      } else {
        CloseWhileSweeping(t);
      }
    }

    method FreeTop(t: Ref)
      requires Inv() && t in openupval && openupval[t] != [] && openupval[t][0] !in Alive(Gs()) && gcstate != GCSpropagate
      modifies this`objs, this`marked, this`openupval, this`uvhead
      ensures Inv() && t in openupval && openupval[t] == old(openupval)[t][1..]
      ensures SameValues(old(Gs()), Gs()) && Swept(old(Gs()), Gs()) && old(Alive(Gs())) == Alive(Gs())
      ensures |uvhead| < |old(uvhead)|
    {
      hide InvOf, Alive, SameValues, Swept, RefsOf;
      ghost var g0, m0 := Gs(), Mk();
      RunningRoot();
      var u := openupval[t][0];
      openupval := openupval[t := openupval[t][1..]];
      objs, marked, uvhead := Without(objs, u), Without(marked, u), uvhead - {u};
      FreeTopKeeps(g0, m0, Gs(), Mk(), gcstate, sweepstrgc, sweepgc, mainthread, running, RefsOf(Early()), t);
    }

    /** unlinkupval, the copy of the value, and the link into the root list. */
    method UnlinkTop(t: Ref)
      requires Shape(Gs()) && t in openupval && openupval[t] != []
      modifies this`objs, this`rootgc, this`sweepgc, this`openupval, this`uvhead
      ensures old(openupval)[t][0] in marked && ClosedTop(old(Gs()), Gs(), t, marked[old(openupval)[t][0]])
      ensures sweepgc == Shifted(old(sweepgc)) && |uvhead| + 1 == |old(uvhead)|
    {
      var u := openupval[t][0];
      UpvalPlace(Gs(), t, 0);
      var value := FieldsOf(objs, u);
      openupval, uvhead := openupval[t := openupval[t][1..]], uvhead - {u};
      objs := objs[u := objs[u].(fields := value, slot := Closed)];
      LinkRoot(u);
      assert marked[u := marked[u]] == marked;
    }

    method CloseWhileSweeping(t: Ref)
      requires Inv() && t in openupval && openupval[t] != [] && openupval[t][0] in Alive(Gs()) && gcstate != GCSpropagate
      modifies this`objs, this`marked, this`rootgc, this`sweepgc, this`openupval, this`uvhead
      ensures Inv() && t in openupval && openupval[t] == old(openupval)[t][1..]
      ensures SameValues(old(Gs()), Gs()) && Swept(old(Gs()), Gs()) && old(Alive(Gs())) == Alive(Gs())
      ensures CursorKept(old(rootgc), old(sweepgc), rootgc, sweepgc) && sweepgc >= old(sweepgc)
      ensures |uvhead| + 1 == |old(uvhead)| && |rootgc| == |old(rootgc)| + 1
    {
      hide InvOf, Sound, Shape, Alive, SameValues, Swept, CursorKept, RefsOf;
      InvShape();
      RunningRoot();
      ghost var g0, m0 := Gs(), Mk();
      var u := openupval[t][0];
      UpvalPlace(g0, t, 0);
      UnlinkTop(t);
      CursorFront(g0.rootgc, old(sweepgc), u);
      if IsGray(marked[u]) {
        marked := marked[u := MakeWhite(currentwhite, marked[u])];
      }
      SweptClose(g0, m0, Gs(), Mk(), gcstate, sweepstrgc, old(sweepgc), mainthread, running, RefsOf(Early()), t);
    }

    method CloseWhileMarking(t: Ref)
      requires Inv() && t in openupval && openupval[t] != [] && gcstate == GCSpropagate
      modifies this`objs, this`marked, this`gray, this`rootgc, this`sweepgc, this`openupval, this`uvhead
      ensures Inv() && t in openupval && openupval[t] == old(openupval)[t][1..] && SameValues(old(Gs()), Gs())
      ensures CursorKept(old(rootgc), old(sweepgc), rootgc, sweepgc) && sweepgc >= old(sweepgc)
      ensures |uvhead| + 1 == |old(uvhead)| && |rootgc| == |old(rootgc)| + 1
    {
      hide Sound, Clean, Marking, ClosedSet, StringsDone, RootsDone, FixedOnly, Swept, SameValues, RefsOf, Marked, Alive, CursorKept;
      InvShape();
      ghost var g0, E := Gs(), objs.Keys;
      var u := openupval[t][0];
      var value := DetachWhileMarking(t);
      ghost var g1, m1 := Gs(), Mk();
      if IsBlack(marked[u]) {
        FinishClosed(u, value, E);
      }
      AfterMarking(g0, g1, Gs(), m1, Mk(), mainthread);
    }

    method DetachWhileMarking(t: Ref) returns (value: Val)
      requires Inv() && t in openupval && openupval[t] != [] && gcstate == GCSpropagate
      modifies this`objs, this`marked, this`rootgc, this`sweepgc, this`openupval, this`uvhead
      ensures t in openupval && openupval[t] == old(openupval)[t][1..] && SameValues(old(Gs()), Gs())
      ensures Sound(Gs()) && FixedOnly(Gs(), mainthread) && Threads() && |strt| > 0 && objs.Keys == old(objs).Keys
      ensures CursorKept(old(rootgc), old(sweepgc), rootgc, sweepgc) && sweepgc >= old(sweepgc) && old(Marked(Mk())) <= Marked(Mk())
      ensures |uvhead| + 1 == |old(uvhead)| && |rootgc| == |old(rootgc)| + 1
      ensures var u := old(openupval)[t][0];
              && u in objs && u in marked && FieldsOf(objs, u) == [value]
              && Marking(Mk(), currentwhite, if IsBlack(marked[u]) then {u} else {}, objs.Keys, objs.Keys)
    {
      hide InvOf, Sound, Shape, Marking, Marked, FixedOnly, SameValues, RefsOf;
      InvShape();
      RunningRoot();
      ghost var g0, m0 := Gs(), Mk();
      var u := openupval[t][0];
      UpvalPlace(g0, t, 0);
      value := FieldsOf(objs, u)[0];
      UnlinkTop(t);
      CursorFront(g0.rootgc, old(sweepgc), u);
      if IsGray(marked[u]) {
        marked := marked[u := Gray2Black(marked[u])];
      }
      DetachKeeps(g0, m0, Gs(), Mk(), sweepstrgc, old(sweepgc), mainthread, running, RefsOf(Early()), t);
    }

    /** luaC_barrier for an upvalue that was just closed and made black. */
    method FinishClosed(u: Ref, value: Val, ghost E: set<Ref>)
      requires Sound(Gs()) && Marking(Mk(), currentwhite, {u}, E, E) && u in objs && E == objs.Keys && IsBlack(marked[u])
      requires FieldsOf(objs, u) == [value]
      modifies this`marked, this`gray
      ensures Sound(Gs()) && Marking(Mk(), currentwhite, {}, E, E) && Grown(old(Mk()), Mk()) && Alive(Gs()) == objs.Keys
    {
      hide Tricolour, ClosedSet, Settled, Shape;
      ghost var g0, m0 := Gs(), Mk();
      assert ColourAt(m0, currentwhite, u);
      FieldInside(objs, E, u, 0);
      if value.Ref? {
        if IsWhite(marked[value.r]) {
          ReallyMarkObject(value.r, {u}, E, E);
        }
      }
      assert {} + {u} == {u};
      EndMark(Mk(), Mk(), currentwhite, {}, E, E, u);
      ShapeMarks(g0, Gs());
      MarkingSound(Gs(), Mk(), {}, E, E);
    }

    /** luaF_close: the open upvalues of a thread at or above a stack level. */
    method LuaFClose(t: Ref, level: nat)
      requires Inv() && t in openupval
      modifies this`objs, this`marked, this`gray, this`rootgc, this`sweepgc, this`openupval, this`uvhead
      ensures Inv() && gcstate == old(gcstate) && t in openupval && SameValues(old(Gs()), Gs())
      ensures forall u :: u in openupval[t] ==> u in objs && IsOpen(objs[u]) && objs[u].slot.i < level
      ensures forall u :: u in objs && IsOpen(objs[u]) && objs[u].slot.thread == t ==> objs[u].slot.i < level
      ensures gcstate != GCSpropagate ==> Swept(old(Gs()), Gs()) && old(Alive(Gs())) == Alive(Gs())
      ensures CursorKept(old(rootgc), old(sweepgc), rootgc, sweepgc)
      ensures |uvhead| + |rootgc| - sweepgc <= |old(uvhead)| + |old(rootgc)| - old(sweepgc)
    {
      hide Inv, Sound, Shape, SameValues, Swept, CursorKept, Alive;
      InvShape();
      ghost var g0 := Gs();
      ghost var work := |uvhead| + |rootgc| - sweepgc;
      SweptRefl(g0);
      SameRefl(g0, rootgc, sweepgc);
      while openupval[t] != [] && AtLeast(openupval[t][0], level)
        invariant Inv() && gcstate == old(gcstate) && t in openupval && SameValues(g0, Gs())
        invariant gcstate != GCSpropagate ==> Swept(g0, Gs()) && Alive(g0) == Alive(Gs())
        invariant CursorKept(g0.rootgc, old(sweepgc), rootgc, sweepgc)
        invariant |uvhead| + |rootgc| - sweepgc <= work
        decreases |openupval[t]|
      {
        ghost var g1, n1 := Gs(), sweepgc;
        CloseTop(t);
        SameValuesTrans(g0, g1, Gs());
        CursorTrans(g0.rootgc, old(sweepgc), g1.rootgc, n1, rootgc, sweepgc);
        if gcstate != GCSpropagate { SweptTrans(g0, g1, Gs()); }
      }
      InvShape();
      LevelBelow(Gs(), t, level);
    }

    predicate AtLeast(u: Ref, level: nat)
      reads this`objs
    {
      u in objs && IsOpen(objs[u]) && objs[u].slot.i >= level
    }

    /** The open upvalues of a thread are swept before the thread. */
    method SweepUpvalsOf(curr: Ref)
      requires Inv() && gcstate == GCSsweep && sweepgc < |rootgc| && curr == rootgc[sweepgc]
      modifies this`objs, this`marked, this`openupval, this`uvhead
      ensures Inv() && Swept(old(Gs()), Gs()) && curr in marked && curr in objs && |uvhead| <= |old(uvhead)|
      ensures curr in openupval ==> forall k :: 0 <= k < |openupval[curr]| ==> Fresh(Gs(), openupval[curr][k])
    {
      hide Clean, Marking, Shape, ClosedSet, StringsDone, RootsDone, FixedOnly, Swept;
      ghost var g0 := Gs();
      RootPlace(g0, sweepgc);
      if objs[curr].kind == KThread {
        SweepOpen(curr);
      } else {
        SweptRefl(g0);
      }
      AfterOpenSweep(g0, Gs(), mainthread, sweepgc, curr);
    }

    /** sweeplist on one object of the root list. */
    method SweepObject()
      requires Inv() && gcstate == GCSsweep && sweepgc < |rootgc|
      modifies this`objs, this`marked, this`gray, this`rootgc, this`sweepgc, this`openupval, this`uvhead
      ensures Inv() && gcstate == GCSsweep && Swept(old(Gs()), Gs())
      ensures |uvhead| + |rootgc| - sweepgc < |old(uvhead)| + |old(rootgc)| - old(sweepgc)
    {
      hide Clean, Marking, Shape, ClosedSet, StringsDone, RootsDone, FixedOnly, Swept;
      ghost var g0 := Gs();
      var curr := rootgc[sweepgc];
      SweepUpvalsOf(curr);
      ghost var g1 := Gs();
      DeadMeaning(g1, curr);
      if Survives(currentwhite, marked[curr]) {
        marked := marked[curr := MakeWhite(currentwhite, marked[curr])];
        sweepgc := sweepgc + 1;
        ObjectWhite(g1, Gs(), mainthread, old(sweepgc), curr);
      } else {
        FreeObject(curr);
      }
      SweptTrans(g0, g1, Gs());
    }

    /** freeobj on an object of the root list; luaE_freethread closes the open upvalues of a thread first. */
    method FreeObject(curr: Ref)
      requires Inv() && gcstate == GCSsweep && sweepgc < |rootgc| && curr == rootgc[sweepgc] && curr in marked
      requires curr !in Alive(Gs()) && !marked[curr].fixed
      modifies this`objs, this`marked, this`gray, this`rootgc, this`sweepgc, this`openupval, this`uvhead
      ensures Inv() && gcstate == GCSsweep && Swept(old(Gs()), Gs())
      ensures |uvhead| + |rootgc| - sweepgc < |old(uvhead)| + |old(rootgc)| - old(sweepgc)
    {
      hide InvOf, Alive, Swept, RefsOf, Shape;
      InvShape();
      ghost var g0 := Gs();
      var k := EmptyThread(curr);
      ghost var g1, m1 := Gs(), Mk();
      RunningRoot();
      rootgc := rootgc[..k] + rootgc[k + 1..];
      objs, marked, openupval := Without(objs, curr), Without(marked, curr), Without(openupval, curr);
      FreedKeeps(g1, m1, Gs(), Mk(), sweepstrgc, sweepgc, mainthread, running, RefsOf(Early()), k, curr);
      SweptTrans(g0, g1, Gs());
    }

    /** Closes the open upvalues of a thread that is about to be freed; `k` is where it is in the list then. */
    method EmptyThread(curr: Ref) returns (k: nat)
      requires Inv() && gcstate == GCSsweep && sweepgc < |rootgc| && curr == rootgc[sweepgc] && curr in marked
      requires curr !in Alive(Gs()) && !marked[curr].fixed
      modifies this`objs, this`marked, this`gray, this`rootgc, this`sweepgc, this`openupval, this`uvhead
      ensures Inv() && gcstate == GCSsweep && Swept(old(Gs()), Gs()) && k < |rootgc| && rootgc[k] == curr
      ensures sweepgc == 0 || sweepgc == k
      ensures curr in marked && curr !in Alive(Gs()) && !marked[curr].fixed
      ensures curr in openupval ==> openupval[curr] == []
      ensures |uvhead| + |rootgc| - sweepgc <= |old(uvhead)| + |old(rootgc)| - old(sweepgc)
    {
      hide InvOf, Sound, Shape, Swept, SameValues, CursorKept, Alive;
      InvShape();
      ghost var g0 := Gs();
      var before := |rootgc|;
      k := sweepgc;
      RootPlace(g0, k);
      SweptRefl(g0);
      SameRefl(g0, rootgc, k);
      if objs[curr].kind == KThread {
        LuaFClose(curr, 0);
        assert openupval[curr] != [] ==> openupval[curr][0] in openupval[curr];
      }
      RootKept(g0.rootgc, k, rootgc, sweepgc);
      k := |rootgc| - before + k;
      InvShape();
      RootPlace(Gs(), k);
      CurrentSwept(g0, Gs(), curr);
    }

    /** sweeplist on the root list, at most `count` objects. */
    method SweepList(count: nat)
      requires Inv() && gcstate == GCSsweep
      modifies this`objs, this`marked, this`gray, this`rootgc, this`sweepgc, this`openupval, this`uvhead
      ensures Inv() && gcstate == GCSsweep && Swept(old(Gs()), Gs())
      ensures old(sweepgc) < |old(rootgc)| && count > 0 ==>
                |uvhead| + |rootgc| - sweepgc < |old(uvhead)| + |old(rootgc)| - old(sweepgc)
      ensures old(sweepgc) == |old(rootgc)| ==> rootgc == old(rootgc) && sweepgc == old(sweepgc)
    {
      hide Clean, Marking, Shape, ClosedSet, StringsDone, RootsDone, FixedOnly, Swept;
      ghost var g0 := Gs();
      SweptRefl(g0);
      var n := count;
      while sweepgc < |rootgc| && n > 0
        invariant Inv() && gcstate == GCSsweep && Swept(g0, Gs()) && n <= count
        invariant n == count ==> |uvhead| + |rootgc| - sweepgc == |old(uvhead)| + |old(rootgc)| - old(sweepgc) && sweepgc == old(sweepgc) && rootgc == old(rootgc)
        invariant n < count ==> |uvhead| + |rootgc| - sweepgc < |old(uvhead)| + |old(rootgc)| - old(sweepgc)
        invariant n < count ==> old(sweepgc) < |old(rootgc)|
        decreases n
      {
        ghost var g1 := Gs();
        SweepObject();
        SweptTrans(g0, g1, Gs());
        n := n - 1;
      }
    }

    // -------------------------------------------------------------------------
    // Steps and cycles
    // -------------------------------------------------------------------------

    method SweepStringStep()
      requires Inv() && gcstate == GCSsweepstring
      modifies this`objs, this`marked, this`strt, this`sweepstrgc, this`gcstate
      ensures Inv() && Swept(old(Gs()), Gs()) && gcstate in {GCSsweepstring, GCSsweep}
      ensures gcstate == GCSsweepstring ==> |strt| - sweepstrgc < |old(strt)| - old(sweepstrgc)
    {
      hide Sound, StringsDone, FixedOnly, Swept, PhaseOf, RefsOf, Fresh;
      ghost var g0, m0 := Gs(), Mk();
      RunningRoot();
      var h := sweepstrgc;
      BucketLeft(g0, m0, h, sweepgc, RefsOf(Early()));
      SweepBucket(h);
      sweepstrgc := h + 1;
      if sweepstrgc >= |strt| {
        gcstate := GCSsweep;
      }
      BucketKeeps(g0, m0, Gs(), Mk(), h, sweepgc, mainthread, running, RefsOf(Early()));
    }

    method SweepStep()
      requires Inv() && gcstate == GCSsweep
      modifies this`objs, this`marked, this`gray, this`rootgc, this`sweepgc, this`openupval, this`uvhead, this`gcstate
      ensures Inv() && Swept(old(Gs()), Gs()) && gcstate in {GCSsweep, GCSfinalize}
      ensures gcstate == GCSsweep ==> |uvhead| + |rootgc| - sweepgc < |old(uvhead)| + |old(rootgc)| - old(sweepgc)
    {
      hide Clean, Marking, Shape, ClosedSet, StringsDone, RootsDone, FixedOnly, Swept;
      SweepList(GCSWEEPMAX);
      if sweepgc == |rootgc| {
        AllFresh(Gs());
        gcstate := GCSfinalize;
      }
    }

    ghost function Rank(): nat
      reads this
    {
      match gcstate
      case GCSpropagate => 4
      case GCSsweepstring => 3
      case GCSsweep => 2
      case GCSfinalize => 1
      case GCSpause => 0
    }

    ghost function Left(): int
      reads this
    {
      match gcstate
      case GCSpropagate => |Pending(Mk())|
      case GCSsweepstring => |strt| - sweepstrgc
      case GCSsweep => |uvhead| + |rootgc| - sweepgc
      case _ => 0
    }

    /** The bound on what a mark phase marks, once it has begun. */
    ghost predicate Bounded(P: set<Ref>)
      reads this
    {
      && ClosedSet(objs, P) && Roots() <= P
      && (gcstate == GCSpropagate ==> Marking(Mk(), currentwhite, {}, objs.Keys, P))
    }

    /** singlestep, without finalizers. */
    method SingleStep(ghost P: set<Ref>)
      requires Inv() && (gcstate in {GCSpause, GCSpropagate} ==> Bounded(P))
      modifies this`objs, this`marked, this`currentwhite, this`gcstate, this`gray, this`grayagain, this`rootgc, this`sweepgc,
               this`strt, this`sweepstrgc, this`openupval, this`uvhead
      ensures Inv() && Preserved(old(Gs()), Gs())
      ensures old(gcstate) == GCSpause ==> gcstate == GCSpropagate
      ensures old(gcstate) != GCSpause ==> Rank() < old(Rank()) || (Rank() == old(Rank()) && 0 <= Left() < old(Left()))
      ensures gcstate == GCSpropagate ==> objs == old(objs) && SameFixed(old(marked), marked) && Bounded(P)
      ensures old(gcstate) == GCSpropagate && gcstate != GCSpropagate ==>
                gcstate == GCSsweepstring && objs == old(objs) && SameFixed(old(marked), marked) && Alive(Gs()) <= P
      ensures old(gcstate) in {GCSsweepstring, GCSsweep, GCSfinalize} ==> Swept(old(Gs()), Gs())
      ensures old(gcstate) == GCSsweepstring ==> gcstate in {GCSsweepstring, GCSsweep}
      ensures old(gcstate) == GCSsweep ==> gcstate in {GCSsweep, GCSfinalize}
      ensures old(gcstate) == GCSfinalize ==> gcstate == GCSpause
    {
      hide Clean, Marking, Shape, ClosedSet, StringsDone, RootsDone, FixedOnly, Swept, Preserved;
      match gcstate {
        case GCSpause => StartCycle(P);
        case GCSpropagate => MarkStep(P);
        case GCSsweepstring =>
          ghost var g0 := Gs();
          SweepStringStep();
          SweptPreserves(g0, Gs());
        case GCSsweep =>
          ghost var g0 := Gs();
          SweepStep();
          SweptPreserves(g0, Gs());
        case GCSfinalize =>
          SweptRefl(Gs());
          SweptPreserves(Gs(), Gs());
          gcstate := GCSpause;
      }
    }

    method StartCycle(ghost P: set<Ref>)
      requires Inv() && gcstate in {GCSpause, GCSfinalize} && Bounded(P)
      modifies this`marked, this`gray, this`grayagain, this`gcstate
      ensures Inv() && Preserved(old(Gs()), Gs()) && gcstate == GCSpropagate && SameFixed(old(marked), marked) && Bounded(P)
    {
      hide Clean, Marking, Sound, ClosedSet, FixedOnly, SameFixed, RefsOf, Preserved, Marked;
      ghost var g0 := Gs();
      MarkRoot(P);
      CycleStarts(g0, Gs(), Mk(), mainthread, P);
    }

    method MarkStep(ghost P: set<Ref>)
      requires Inv() && gcstate == GCSpropagate && Bounded(P)
      modifies this`marked, this`currentwhite, this`gcstate, this`gray, this`grayagain, this`sweepgc, this`sweepstrgc
      ensures Inv() && Preserved(old(Gs()), Gs()) && gcstate in {GCSpropagate, GCSsweepstring} && SameFixed(old(marked), marked)
      ensures gcstate == GCSpropagate ==> Bounded(P) && 0 <= Left() < old(Left())
      ensures gcstate == GCSsweepstring ==> Alive(Gs()) <= P
    {
      hide *;
      if gray != [] {
        TraverseStep(P);
      } else {
        AtomicStep(P);
      }
    }

    method AtomicStep(ghost P: set<Ref>)
      requires Inv() && gcstate == GCSpropagate && Bounded(P)
      modifies this`marked, this`currentwhite, this`gcstate, this`gray, this`grayagain, this`sweepgc, this`sweepstrgc
      ensures Inv() && gcstate == GCSsweepstring && SameFixed(old(marked), marked) && Alive(Gs()) <= P
      ensures Preserved(old(Gs()), Gs())
    {
      hide Clean, Marking, Shape, ClosedSet, StringsDone, RootsDone, FixedOnly, Sound, Preserved;
      ghost var g0 := Gs();
      Atomic(P);
      SameObjects(g0, Gs());
    }

    method TraverseStep(ghost P: set<Ref>)
      requires Inv() && gcstate == GCSpropagate && Bounded(P) && gray != []
      modifies this`marked, this`gray, this`grayagain
      ensures Inv() && SameFixed(old(marked), marked) && Bounded(P) && 0 <= Left() < old(Left())
      ensures Preserved(old(Gs()), Gs())
    {
      hide Clean, Marking, Shape, ClosedSet, StringsDone, RootsDone, FixedOnly, Swept, Pending, Preserved;
      ghost var g0, before := Gs(), Pending(Mk());
      PropagateMark(objs.Keys, P);
      MarkingWider(Mk(), currentwhite, objs.Keys, P);
      ShapeMarks(g0, Gs());
      MarkingSound(Gs(), Mk(), {}, objs.Keys, P);
      FixedStays(g0, Gs(), mainthread);
      ProperSize(Pending(Mk()), before);
      SameObjects(g0, Gs());
    }

    /** The first part of luaC_fullgc. */
    method FinishSweep()
      requires Inv()
      modifies this`objs, this`marked, this`currentwhite, this`gcstate, this`gray, this`grayagain, this`rootgc, this`sweepgc,
               this`strt, this`sweepstrgc, this`openupval, this`uvhead
      ensures Inv() && gcstate == GCSfinalize && Swept(old(Gs()), Gs())
    {
      hide InvOf, Swept, RefsOf;
      ghost var g0, m0, s0, k0, n0 := Gs(), Mk(), gcstate, sweepstrgc, sweepgc;
      if gcstate in {GCSpause, GCSpropagate} {
        sweepstrgc := 0;
        sweepgc := 0;
        gray := [];
        grayagain := [];
        gcstate := GCSsweepstring;
        SweepAgain(g0, m0, Mk(), s0, k0, n0, mainthread, running, RefsOf(Early()));
        assert Gs() == g0;
      }
      assert gcstate.GCSsweepstring? || gcstate.GCSsweep? || gcstate.GCSfinalize?;
      SweepUntil(GCSfinalize);
    }

    /** Sweeps until a state after the sweep. */
    method SweepUntil(stop: GcState)
      requires Inv() && gcstate in {GCSsweepstring, GCSsweep, GCSfinalize} && stop in {GCSfinalize, GCSpause}
      modifies this`objs, this`marked, this`currentwhite, this`gcstate, this`gray, this`grayagain, this`rootgc, this`sweepgc,
               this`strt, this`sweepstrgc, this`openupval, this`uvhead
      ensures Inv() && gcstate == stop && Swept(old(Gs()), Gs())
    {
      InvShape();
      hide Inv, Swept, Preserved, Bounded, Shape, Sound, Pending;
      ghost var g0 := Gs();
      SweptRefl(g0);
      while gcstate != stop
        invariant Inv() && Swept(g0, Gs())
        invariant gcstate in {GCSsweepstring, GCSsweep, GCSfinalize} || gcstate == stop
        decreases Rank(), Left()
      {
        ghost var g1 := Gs();
        SingleStep({});
        SweptTrans(g0, g1, Gs());
      }
    }

    /** A whole cycle without anything happening in between. */
    method WholeCycle(ghost P: set<Ref>)
      requires Inv() && gcstate == GCSfinalize && Bounded(P)
      modifies this`objs, this`marked, this`currentwhite, this`gcstate, this`gray, this`grayagain, this`rootgc, this`sweepgc,
               this`strt, this`sweepstrgc, this`openupval, this`uvhead
      ensures Inv() && gcstate == GCSpause && Preserved(old(Gs()), Gs())
      ensures CollectedTo(old(Gs()), Gs(), P)
    {
      hide Clean, Marking, Shape, ClosedSet, StringsDone, RootsDone, FixedOnly, Swept, Sound;
      ghost var g0 := Gs();
      StartCycle(P);
      MarkCycle(P);
      ghost var g1 := Gs();
      SweepUntil(GCSpause);
      CycleResult(g0, g1, Gs(), P);
    }

    method MarkCycle(ghost P: set<Ref>)
      requires Inv() && gcstate == GCSpropagate && Bounded(P)
      modifies this`marked, this`currentwhite, this`gcstate, this`gray, this`grayagain, this`sweepgc, this`sweepstrgc
      ensures Inv() && gcstate == GCSsweepstring && Alive(Gs()) <= P && SameFixed(old(marked), marked)
    {
      hide Inv, Swept, Preserved, Bounded, Shape, Sound, Alive, Pending, SameFixed;
      ghost var marks0 := marked;
      SameFixedTrans(marks0, marks0, marks0);
      while gcstate == GCSpropagate
        invariant Inv() && gcstate in {GCSpropagate, GCSsweepstring} && SameFixed(marks0, marked)
        invariant if gcstate == GCSpropagate then Bounded(P) else Alive(Gs()) <= P
        decreases Rank(), Left()
      {
        ghost var marks1 := marked;
        MarkStep(P);
        SameFixedTrans(marks0, marks1, marked);
      }
    }

    /** Nothing is dead while objects are being marked. */
    lemma AllMarkable()
      requires Inv()
      ensures gcstate == GCSpropagate ==> Alive(Gs()) == objs.Keys
    {
      hide Clean, Marking, Shape, ClosedSet, StringsDone, RootsDone, FixedOnly, RefsOf;
      if gcstate == GCSpropagate { MarkingSound(Gs(), Mk(), {}, objs.Keys, objs.Keys); }
    }

    lemma InvShape()
      requires Inv()
      ensures Shape(Gs()) && Sound(Gs())
    {
    }

    /** luaC_fullgc: finishes a sweep, or turns an unfinished mark phase into a sweep that frees nothing; then
        runs one whole cycle.  What is left is exactly what can be reached, and the fixed strings. */
    method LuaCFullGc()
      requires Inv()
      modifies this`objs, this`marked, this`currentwhite, this`gcstate, this`gray, this`grayagain, this`rootgc, this`sweepgc,
               this`strt, this`sweepstrgc, this`openupval, this`uvhead
      ensures Inv() && gcstate == GCSpause && Preserved(old(Gs()), Gs())
      ensures forall r :: r in objs <==> Reachable(old(objs), Roots(), r) || (r in old(objs) && old(marked)[r].fixed)
    {
      hide Clean, Marking, Shape, ClosedSet, StringsDone, RootsDone, FixedOnly, Swept, Sound, Preserved, CollectedTo;
      InvShape();
      ghost var g0 := Gs();
      FinishSweep();
      InvShape();
      ghost var g1 := Gs();
      ghost var P := ReachableSet(objs, Roots());
      ReachBound(g1);
      WholeCycle(P);
      FullResult(g0, g1, Gs(), P);
    }

    // -------------------------------------------------------------------------
    // The program: stores and their barriers
    // -------------------------------------------------------------------------

    /** A reference the program can have in its hands. */
    ghost predicate Held(v: Val)
      reads this
    {
      v.Ref? ==> Reachable(objs, Roots(), v.r)
    }

    /** Between a store into `o` and its barrier: only the value just stored may be white. */
    ghost predicate Storing(o: Ref, v: Val)
      reads this
    {
      && Sound(Gs()) && FixedOnly(Gs(), mainthread) && Threads() && |strt| > 0
      && o in Alive(Gs()) && (v.Ref? ==> v.r in Alive(Gs()))
      && if gcstate == GCSpropagate then
           && RootsMarked() && Marking(Mk(), currentwhite, {o}, objs.Keys, objs.Keys) && NonWhite(marked, o)
           && forall w :: w in FieldsOf(objs, o) ==> w == v || (w.Ref? ==> NonWhite(marked, w.r))
         else Phase()
    }

    /** luaC_barrierf */
    method LuaCBarrierF(o: Ref, v: Ref)
      requires Storing(o, Val.Ref(v)) && IsBlack(marked[o]) && IsWhite(marked[v])
      modifies this`marked, this`gray
      ensures Inv()
    {
      ghost var g0, m0 := Gs(), Mk();
      assert !IsDead(currentwhite, marked[v]) && !IsDead(currentwhite, marked[o]);
      assert gcstate != GCSfinalize && gcstate != GCSpause by { assert o in objs; }
      if gcstate == GCSpropagate {
        RestoreInvariant(o, v);
      } else {
        hide Clean, Marking, Shape, ClosedSet, StringsDone, RootsDone, FixedOnly, Swept;
        DeadMeaning(g0, o);
        marked := marked[o := MakeWhite(currentwhite, marked[o])];
        BarrierWhite(g0, Gs(), mainthread, o, sweepstrgc, sweepgc);
      }
    }

    method RestoreInvariant(o: Ref, v: Ref)
      requires Storing(o, Val.Ref(v)) && gcstate == GCSpropagate && IsBlack(marked[o]) && IsWhite(marked[v])
      modifies this`marked, this`gray
      ensures Inv()
    {
      hide Tricolour, ClosedSet, Settled, Shape, FixedOnly;
      ghost var g0, m0 := Gs(), Mk();
      ReallyMarkObject(v, {o}, objs.Keys, objs.Keys);
      assert {} + {o} == {o};
      EndMark(Mk(), Mk(), currentwhite, {}, objs.Keys, objs.Keys, o);
      ShapeMarks(g0, Gs());
      MarkingSound(Gs(), Mk(), {}, objs.Keys, objs.Keys);
      MarksFixed(g0, Gs(), m0, Mk(), mainthread);
    }

    /** luaC_barrierback */
    method LuaCBarrierBack(o: Ref, ghost v: Val)
      requires Storing(o, v) && objs[o].kind == KTable && IsBlack(marked[o])
      modifies this`marked, this`grayagain
      ensures Inv()
    {
      hide Sound, ClosedSet, StringsDone, RootsDone, Marking, Clean, FixedOnly, RefsOf, Marked;
      ghost var g0, m0 := Gs(), Mk();
      marked := marked[o := Black2Gray(marked[o])];
      grayagain := [o] + grayagain;
      BackKeeps(g0, m0, Gs(), Mk(), gcstate, sweepstrgc, sweepgc, mainthread, running, RefsOf(Early()), o);
    }

    /** The store itself: one value of the object changes. */
    method StoreFields(o: Ref, fields: seq<Val>, ghost v: Val)
      requires Inv() && o in Alive(Gs()) && !IsOpen(objs[o]) && objs[o].kind != KString && (v.Ref? ==> v.r in Alive(Gs()))
      requires AllIn(fields, Alive(Gs())) && forall w :: w in fields ==> w == v || w in objs[o].fields
      requires objs[o].kind == KUpval ==> |fields| == 1
      requires objs[o].kind == KThread ==>
                 |fields| > 0 && forall u :: u in objs && IsOpen(objs[u]) && objs[u].slot.thread == o ==> objs[u].slot.i < |fields|
      modifies this`objs
      ensures objs == old(objs)[o := old(objs)[o].(fields := fields)]
      ensures Threads() && FixedOnly(Gs(), mainthread) && Sound(Gs()) && Alive(Gs()) == old(Alive(Gs()))
      ensures gcstate != GCSpropagate ==> Phase()
      ensures gcstate == GCSpropagate ==> RootsMarked() && Marking(Mk(), currentwhite, {o}, objs.Keys, objs.Keys)
      ensures gcstate == GCSpropagate && !IsBlack(marked[o]) ==> Marking(Mk(), currentwhite, {}, objs.Keys, objs.Keys)
      ensures gcstate == GCSpropagate && IsBlack(marked[o]) ==>
                forall w :: w in FieldsOf(objs, o) ==> w == v || (w.Ref? ==> NonWhite(marked, w.r))
    {
      hide Clean, Marking, Shape, ClosedSet, StringsDone, RootsDone, Swept;
      ghost var g0, m0 := Gs(), Mk();
      objs := objs[o := objs[o].(fields := fields)];
      StoreSound(g0, Gs(), o, fields);
      StillDone(g0, Gs(), sweepstrgc, sweepgc);
      StillDone(g0, Gs(), |strt|, sweepgc);
      assert objs.Keys == g0.objs.Keys;
      if gcstate == GCSpropagate {
        MarkingSound(g0, m0, {}, objs.Keys, objs.Keys);
        StoreMarking(m0, Mk(), currentwhite, objs.Keys, o, fields);
        StoredChildren(m0, Mk(), currentwhite, o, fields, v);
      }
    }

    method NoBarrier(o: Ref, ghost v: Val)
      requires Sound(Gs()) && FixedOnly(Gs(), mainthread) && Threads() && |strt| > 0 && o in Alive(Gs()) && (v.Ref? ==> v.r in Alive(Gs()))
      requires gcstate != GCSpropagate ==> Phase()
      requires gcstate == GCSpropagate ==> RootsMarked() && Marking(Mk(), currentwhite, {o}, objs.Keys, objs.Keys)
      requires gcstate == GCSpropagate && !IsBlack(marked[o]) ==> Marking(Mk(), currentwhite, {}, objs.Keys, objs.Keys)
      requires gcstate == GCSpropagate && IsBlack(marked[o]) ==>
                forall w :: w in FieldsOf(objs, o) ==> w == v || (w.Ref? ==> NonWhite(marked, w.r))
      requires v.Ref? && IsWhite(marked[v.r]) ==> !IsBlack(marked[o])
      ensures Inv()
    {
      hide Tricolour, Shape, ClosedSet, StringsDone, RootsDone, FixedOnly, Settled;
      if gcstate == GCSpropagate && IsBlack(marked[o]) {
        assert {} + {o} == {o};
        assert ColourAt(Mk(), currentwhite, o);
        EndMark(Mk(), Mk(), currentwhite, {}, objs.Keys, objs.Keys, o);
      }
    }

    /** A store into a field, with the barrier of its kind of object: none for a stack. */
    method SetField(o: Ref, i: nat, v: Val)
      requires Inv() && Held(Val.Ref(o)) && Held(v)
      requires o in objs && !IsOpen(objs[o]) && i < |objs[o].fields|
      modifies this`objs, this`marked, this`gray, this`grayagain
      ensures Inv() && objs == old(objs)[o := old(objs)[o].(fields := old(objs)[o].fields[i := v])]
    {
      hide Clean, Marking, Shape, ClosedSet, StringsDone, RootsDone, FixedOnly, Swept, RefsOf, Reachable, Fresh, Marked, SameFixed;
      ghost var g0 := Gs();
      SoundReachable(g0);
      FieldsAlive(g0, o, i, v);
      UpvalFields(g0, o);
      StoreFields(o, objs[o].fields[i := v], v);
      assert PaintAt(Gs(), o);
      if v.Ref? && IsWhite(marked[v.r]) && IsBlack(marked[o]) {
        if objs[o].kind == KTable {
          LuaCBarrierBack(o, v);
        } else {
          LuaCBarrierF(o, v.r);
        }
      } else {
        NoBarrier(o, v);
      }
    }

    /** A store through an upvalue (OP_SETUPVAL): an open one is never black and needs no barrier. */
    method SetUpval(u: Ref, v: Val)
      requires Inv() && Held(Val.Ref(u)) && Held(v) && u in objs && objs[u].kind == KUpval
      modifies this`objs, this`marked, this`gray, this`grayagain
      ensures Inv() && objs.Keys == old(objs).Keys && u in objs && FieldsOf(objs, u) == [v]
      ensures old(objs[u].slot == Closed) ==> objs == old(objs)[u := old(objs)[u].(fields := [v])]
      ensures old(IsOpen(objs[u])) ==>
                var s := old(objs[u].slot);
                && s.thread in old(objs) && s.i < |old(objs)[s.thread].fields|
                && objs == old(objs)[s.thread := old(objs)[s.thread].(fields := old(objs)[s.thread].fields[s.i := v])]
    {
      hide InvOf, Sound, Alive, Reachable;
      InvShape();
      ghost var g0 := Gs();
      UpvalShape(g0, u);
      if IsOpen(objs[u]) {
        HeldAlive([v], g0);
        HeadIn(v, Alive(g0));
        SetSlot(objs[u].slot.thread, objs[u].slot.i, v);
      } else {
        SetField(u, 0, v);
      }
    }

    /** A store into a stack slot, of a thread that may be dead. */
    method SetSlot(t: Ref, i: nat, v: Val)
      requires Inv() && t in objs && objs[t].kind == KThread && i < |objs[t].fields| && (v.Ref? ==> v.r in Alive(Gs()))
      modifies this`objs
      ensures Inv() && objs == old(objs)[t := old(objs)[t].(fields := old(objs)[t].fields[i := v])]
    {
      hide Clean, Marking, Shape, ClosedSet, StringsDone, RootsDone, FixedOnly, Swept, Fresh;
      ghost var g0, m0 := Gs(), Mk();
      FieldsKept(g0, t);
      objs := objs[t := objs[t].(fields := objs[t].fields[i := v])];
      SlotSound(g0, Gs(), t, i, v);
      StoreFixed(g0, Gs(), mainthread, t);
      StillDone(g0, Gs(), sweepstrgc, sweepgc);
      StillDone(g0, Gs(), |strt|, sweepgc);
      assert objs.Keys == g0.objs.Keys;
      if gcstate == GCSpropagate {
        SlotMarking(g0, m0, Mk(), t, i, v);
      }
    }

    // -------------------------------------------------------------------------
    // The program: stacks, roots and new objects
    // -------------------------------------------------------------------------

    /** Pushes, pops and stores on a stack need no barrier; frames with open upvalues must be closed first. */
    method SetStack(t: Ref, slots: seq<Val>)
      requires Inv() && Held(Val.Ref(t)) && t in objs && objs[t].kind == KThread
      requires forall w :: w in slots ==> Held(w)
      requires forall u :: u in objs && IsOpen(objs[u]) && objs[u].slot.thread == t ==> objs[u].slot.i <= |slots|
      modifies this`objs
      ensures Inv() && |old(objs)[t].fields| > 0
      ensures objs == old(objs)[t := old(objs)[t].(fields := [old(objs)[t].fields[0]] + slots)]
    {
      hide Clean, Marking, Shape, ClosedSet, StringsDone, RootsDone, FixedOnly, Swept;
      ghost var g0, m0 := Gs(), Mk();
      SoundReachable(g0);
      StackAlive(g0, t, slots);
      var fields := [objs[t].fields[0]] + slots;
      objs := objs[t := objs[t].(fields := fields)];
      StoreSound(g0, Gs(), t, fields);
      StoreFixed(g0, Gs(), mainthread, t);
      StillDone(g0, Gs(), sweepstrgc, sweepgc);
      StillDone(g0, Gs(), |strt|, sweepgc);
      assert objs.Keys == g0.objs.Keys;
      if gcstate == GCSpropagate {
        MarkingSound(g0, m0, {}, objs.Keys, objs.Keys);
        ThreadNotBlack(m0, currentwhite, t);
        StoreMarking(m0, Mk(), currentwhite, objs.Keys, t, fields);
      }
    }

    /** The running thread, the error handler and the metatables of the basic types are stored without
        barriers, because the atomic phase marks them again. */
    method SetRoots(t: Ref, handler: Val, basic: seq<Val>)
      requires Inv() && Held(Val.Ref(t)) && t in objs && objs[t].kind == KThread
      requires Held(handler) && forall v :: v in basic ==> Held(v)
      modifies this`running, this`errfunc, this`mt
      ensures Inv() && running == t && errfunc == handler && mt == basic
    {
      hide Clean, Marking, Shape, ClosedSet, Fresh, Swept, RefsOf, StringsDone, RootsDone, FixedOnly;
      ghost var g0 := Gs();
      SoundReachable(g0);
      RefsJoin(Early(), Late());
      running, errfunc, mt := t, handler, basic;
      RefsJoin(Early(), Late());
      if Early()[0].Ref? { RefListed(Early(), 0); }
      NewRoots(g0, Gs(), t, handler, basic, RefsOf(Early()), mainthread, sweepstrgc, sweepgc);
      NewRoots(g0, Gs(), t, handler, basic, RefsOf(Early()), mainthread, |strt|, sweepgc);
    }

    /** luaC_link, with the object initialised: userdata, closed upvalues, closures, tables, threads, prototypes. */
    method NewObject(r: Ref, kind: Kind, fields: seq<Val>)
      requires Inv() && r !in objs && kind != KString && (kind == KThread ==> |fields| > 0) && (kind == KUpval ==> |fields| == 1)
      requires forall v :: v in fields ==> Held(v)
      modifies this`objs, this`marked, this`rootgc, this`sweepgc, this`openupval
      ensures Inv() && r in Alive(Gs()) && objs == old(objs)[r := Obj(kind, fields, Closed, 0)]
    {
      hide InvOf, Sound, Alive, RefsOf, Reachable;
      ghost var g0, m0, n0 := Gs(), Mk(), sweepgc;
      InvShape();
      HeldAlive(fields, g0);
      objs := objs[r := Obj(kind, fields, Closed, 0)];
      marked := marked[r := Mark(currentwhite.w0, currentwhite.w1, false, false)];
      LinkRoot(r);
      if kind == KThread {
        openupval := openupval[r := []];
      }
      LinkedKeeps(g0, m0, Gs(), Mk(), gcstate, sweepstrgc, n0, mainthread, running, RefsOf(Early()), r, objs[r]);
    }

    /** A new string (newlstr). */
    method NewString(r: Ref, h: nat)
      requires Inv() && r !in objs && h < |strt|
      modifies this`objs, this`marked, this`strt
      ensures Inv() && r in Alive(Gs()) && objs == old(objs)[r := Obj(KString, [], Closed, h)]
    {
      hide InvOf, Alive, RefsOf;
      ghost var g0, m0 := Gs(), Mk();
      objs, marked := objs[r := Obj(KString, [], Closed, h)], marked[r := Mark(currentwhite.w0, currentwhite.w1, false, false)];
      strt := strt[h := [r] + strt[h]];
      InternedKeeps(g0, m0, Gs(), Mk(), gcstate, sweepstrgc, sweepgc, mainthread, running, RefsOf(Early()), r, h);
    }

    /** luaS_newlstr finds a string that may be dead already, and resurrects it. */
    method FindString(r: Ref)
      requires Inv() && r in objs && objs[r].kind == KString
      modifies this`marked
      ensures Inv() && r in Alive(Gs())
    {
      InvKeys();
      Revive(r);
    }

    lemma InvKeys()
      requires Inv()
      ensures marked.Keys == objs.Keys
    {
    }

    /** luaF_findupval: the open upvalue of a stack slot, found or created at its place in the list. */
    method LuaFFindUpval(t: Ref, i: nat, r: Ref) returns (u: Ref)
      requires Inv() && Held(Val.Ref(t)) && t in objs && objs[t].kind == KThread && i < |objs[t].fields| && r !in objs
      modifies this`objs, this`marked, this`openupval, this`uvhead
      ensures Inv() && u in Alive(Gs()) && u in objs && objs[u].kind == KUpval && objs[u].slot == Slot(t, i)
      ensures if u in old(objs) then objs == old(objs) else u == r && objs == old(objs)[r := Obj(KUpval, [], Slot(t, i), 0)]
      ensures forall v :: v in objs && objs[v].kind == KUpval && objs[v].slot == Slot(t, i) ==> v == u
    {
      hide Clean, Marking, Shape, ClosedSet, StringsDone, RootsDone, FixedOnly, Swept;
      ghost var g0, m0 := Gs(), Mk();
      SoundReachable(g0);
      InvKeys();
      var pp := OpenPosition(t, i);
      if pp < |openupval[t]| && AtLeast(openupval[t][pp], i) {
        u := openupval[t][pp];
        UpvalPlace(g0, t, pp);
        OnlyUpval(g0, t, pp);
        Revive(u);
      } else {
        OpenBelow(g0, t, i, pp);
        u := r;
        OpenUpval(t, i, pp, r);
      }
    }

    /** The collector may have found an upvalue or a string dead that is in use again. */
    method Revive(r: Ref)
      requires Inv() && r in objs && r in marked
      requires objs[r].kind == KString || (IsOpen(objs[r]) && objs[r].slot.thread in Alive(Gs()))
      modifies this`marked
      ensures Inv() && r in Alive(Gs())
    {
      hide Clean, Marking, Shape, ClosedSet, StringsDone, RootsDone, FixedOnly, Swept;
      ghost var g0 := Gs();
      if IsDead(currentwhite, marked[r]) {
        if gcstate == GCSpropagate { MarkingSound(g0, Mk(), {}, objs.Keys, objs.Keys); }
        marked := marked[r := ChangeWhite(marked[r])];
        ResurrectKeeps(g0, Gs(), r, mainthread, sweepstrgc, sweepgc);
      }
    }

    method OpenUpval(t: Ref, i: nat, pp: nat, r: Ref)
      requires Inv() && t in Alive(Gs()) && t in objs && objs[t].kind == KThread && i < |objs[t].fields| && r !in objs
      requires t in openupval && pp <= |openupval[t]|
      requires forall k :: 0 <= k < pp && openupval[t][k] in objs && IsOpen(objs[openupval[t][k]]) ==> objs[openupval[t][k]].slot.i > i
      requires forall k :: pp <= k < |openupval[t]| && openupval[t][k] in objs && IsOpen(objs[openupval[t][k]]) ==>
                 objs[openupval[t][k]].slot.i < i
      modifies this`objs, this`marked, this`openupval, this`uvhead
      ensures Inv() && r in Alive(Gs()) && objs == old(objs)[r := Obj(KUpval, [], Slot(t, i), 0)]
    {
      hide InvOf, Alive, RefsOf;
      ghost var g0, m0 := Gs(), Mk();
      objs, marked := objs[r := Obj(KUpval, [], Slot(t, i), 0)], marked[r := Mark(currentwhite.w0, currentwhite.w1, false, false)];
      openupval, uvhead := openupval[t := openupval[t][..pp] + [r] + openupval[t][pp..]], uvhead + {r};
      OpenedKeeps(g0, m0, Gs(), Mk(), gcstate, sweepstrgc, sweepgc, mainthread, running, RefsOf(Early()), t, i, pp, r);
    }

    /** The place of a slot in the list of open upvalues of its thread. */
    method OpenPosition(t: Ref, i: nat) returns (pp: nat)
      requires Shape(Gs()) && t in objs && objs[t].kind == KThread
      ensures t in openupval && pp <= |openupval[t]|
      ensures forall k :: 0 <= k < pp ==>
                openupval[t][k] in objs && objs[openupval[t][k]].slot.Slot? && objs[openupval[t][k]].slot.i > i
      ensures pp < |openupval[t]| ==>
                var u := openupval[t][pp]; u in objs && IsOpen(objs[u]) && objs[u].slot.i <= i
    {
      assert HomeAt(Gs(), t);
      pp := 0;
      while pp < |openupval[t]| && AtLeast(openupval[t][pp], i)
        invariant 0 <= pp <= |openupval[t]|
        invariant forall k :: 0 <= k < pp ==>
                openupval[t][k] in objs && objs[openupval[t][k]].slot.Slot? && objs[openupval[t][k]].slot.i > i
      {
        UpvalPlace(Gs(), t, pp);
        if objs[openupval[t][pp]].slot.i == i {
          return;
        }
        pp := pp + 1;
      }
      if pp < |openupval[t]| { UpvalPlace(Gs(), t, pp); }
    }

    /** Between any two steps nothing reachable is freed or dead. */
    lemma NothingReachableFreed()
      requires Inv()
      ensures forall r :: Reachable(objs, Roots(), r) ==> r in objs && r in Alive(Gs())
    {
      SoundReachable(Gs());
    }

    lemma HeldAlive(values: seq<Val>, g: G)
      requires g == Gs() && Sound(g) && forall v :: v in values ==> Held(v)
      ensures AllIn(values, Alive(g))
    {
      SoundReachable(g);
      forall i | 0 <= i < |values| && values[i].Ref? ensures values[i].r in Alive(g) {
        assert values[i] in values;
      }
    }
  }

  /** Fields of an object in a closed set are in the set. */
  lemma FieldInside(objs: Objs, P: set<Ref>, o: Ref, i: int)
    requires ClosedSet(objs, objs.Keys) && ClosedSet(objs, P) && o in objs && o in P && 0 <= i < |FieldsOf(objs, o)|
    ensures var v := FieldsOf(objs, o)[i]; v.Ref? ==> v.r in P && v.r in objs
  {
    var v := FieldsOf(objs, o)[i];
    if v.Ref? {
      assert v == Val.Ref(v.r) && v in FieldsOf(objs, o);
      assert ClosedAt(objs, P, o, v.r) && ClosedAt(objs, objs.Keys, o, v.r);
    }
  }

  lemma GrownSame(m: M, X: set<Ref>)
    requires forall r :: r in X ==> NonWhite(m.marked, r)
    ensures Grown(m, m) && X <= m.marked.Keys && RefsOf([]) == {}
  {
  }

  lemma BeginUpval(m0: M, m1: M, cw: Mark, X: set<Ref>, E: set<Ref>, P: set<Ref>, o: Ref)
    requires Marking(m0, cw, X, E, P) && o in m0.objs && o in m0.marked && o in P && IsWhite(m0.marked[o])
    requires (forall r :: r in X ==> NonWhite(m0.marked, r)) && m1 == m0.(marked := m0.marked[o := White2Gray(m0.marked[o])])
    ensures Marking(m1, cw, X + {o}, E, P) && Grown(m0, m1) && Whites(m1.marked) < Whites(m0.marked) && o !in X
    ensures X + {o} <= m1.marked.Keys && (forall r :: r in X + {o} ==> NonWhite(m1.marked, r)) && IsGray(m1.marked[o])
  {
    assert ColourAt(m0, cw, o);
    BeginMark(m0, m1, cw, X, E, P, o, false);
    assert o in Whites(m0.marked) && o !in Whites(m1.marked);
  }

  lemma GrownGray(m0: M, m1: M, m2: M, o: Ref)
    requires Grown(m0, m1) && Grown(m1, m2) && o in m1.marked && IsGray(m1.marked[o])
    ensures Grown(m0, m2) && o in m2.marked && IsGray(m2.marked[o]) && NonWhite(m2.marked, o)
  {
    assert NonWhite(m1.marked, o);
  }

  lemma EndUpval(m0: M, m2: M, m3: M, o: Ref)
    requires Grown(m0, m2) && o in m0.marked && IsWhite(m0.marked[o]) && o in m2.marked && IsGray(m2.marked[o])
    requires m3 == m2 || m3 == m2.(marked := m2.marked[o := Gray2Black(m2.marked[o])])
    ensures Grown(m0, m3) && NonWhite(m3.marked, o)
  {
  }

  lemma GrownChain(m0: M, m1: M, m2: M, m3: M, m4: M)
    requires Grown(m0, m1) && Grown(m1, m2) && Grown(m2, m3) && Grown(m3, m4)
    ensures Marked(m0) <= Marked(m1) <= Marked(m2) <= Marked(m3) <= Marked(m4) && SameFixed(m0.marked, m4.marked)
  {
    GrownMarked(m0, m1);
    GrownMarked(m1, m2);
    GrownMarked(m2, m3);
    GrownMarked(m3, m4);
  }

  /** Marking can start, and all it starts from is allocated. */
  lemma RootBounds(g: G, m: M, P: set<Ref>, main: Ref, running: Ref, early: seq<Val>, errfunc: Val, mt: seq<Val>)
    requires Sound(g) && ThreadsOf(g, main, running) && Clean(g) && ClosedSet(g.objs, P) && m == M(g.objs, g.marked, [], [])
    requires g.roots == RefsOf(early + ([Val.Ref(running), errfunc] + mt)) && g.roots <= P && |early| > 0 && early[0] == Val.Ref(main)
    ensures Marking(m, g.cw, {}, g.objs.Keys, P) && |g.objs[main].fields| > 0
    ensures RefsOf([g.objs[main].fields[0]]) + RefsOf(early) + RefsOf(mt) <= P
    ensures RefsOf([g.objs[main].fields[0]]) + RefsOf(early) + RefsOf(mt) <= g.objs.Keys
  {
    hide Clean, Shape, PaintAt, RefsOf, ClosedSet, Tricolour, Settled;
    StartMarking(g, m, P);
    RefsJoin(early, [Val.Ref(running), errfunc] + mt);
    RefsJoin([Val.Ref(running), errfunc], mt);
    RefListed(early, 0);
    ThreadTable(g, main, P);
  }

  /** The values of an object that is to be marked can be marked. */
  lemma MarkedBounds(m: M, cw: Mark, X: set<Ref>, E: set<Ref>, P: set<Ref>, o: Ref)
    requires Marking(m, cw, X, E, P) && o in m.objs && o in P
    ensures forall i :: 0 <= i < |FieldsOf(m.objs, o)| && FieldsOf(m.objs, o)[i].Ref? ==>
              FieldsOf(m.objs, o)[i].r in m.objs && FieldsOf(m.objs, o)[i].r in P
  {
    hide Tricolour, Settled, FieldsOf, ClosedSet;
    forall i | 0 <= i < |FieldsOf(m.objs, o)| && FieldsOf(m.objs, o)[i].Ref?
      ensures FieldsOf(m.objs, o)[i].r in m.objs && FieldsOf(m.objs, o)[i].r in P
    {
      FieldInside(m.objs, P, o, i);
    }
  }

  /** One more value of a list is marked. */
  lemma GrownMore(m0: M, m1: M, m2: M, X: set<Ref>, values: seq<Val>, i: nat)
    requires Grown(m0, m1) && Grown(m1, m2) && i < |values| && RefsOf(values[..i]) <= Marked(m1)
    requires (values[i].Ref? ==> NonWhite(m2.marked, values[i].r)) && forall r :: r in X ==> NonWhite(m1.marked, r)
    ensures Grown(m0, m2) && RefsOf(values[..i + 1]) <= Marked(m2) && forall r :: r in X ==> NonWhite(m2.marked, r)
  {
    GrownMarked(m1, m2);
    assert values[..i + 1] == values[..i] + [values[i]];
    RefsJoin(values[..i], [values[i]]);
  }

  lemma AllMarked(values: seq<Val>, m: M)
    requires RefsOf(values[..|values|]) <= Marked(m)
    ensures forall v :: v in values ==> v.Ref? ==> NonWhite(m.marked, v.r)
  {
    assert values[..|values|] == values;
    forall v | v in values && v.Ref? ensures NonWhite(m.marked, v.r) { assert v.r in RefsOf(values); }
  }

  ghost predicate GrownOrBlacker(m0: M, m1: M) {
    && m1.objs == m0.objs
    && Marked(m0) <= Marked(m1) && SameFixed(m0.marked, m1.marked)
  }

  lemma FinishLeaf(m1: M, cw: Mark, X: set<Ref>, E: set<Ref>, P: set<Ref>, o: Ref)
    requires Marking(m1, cw, X + {o}, E, P) && o !in X && NonWhite(m1.marked, o) && o in P
    requires o in m1.objs && m1.objs[o].kind == KString && IsGray(m1.marked[o]) && m1.objs[o].fields == []
    ensures Marking(m1, cw, X, E, P)
  {
    EndMark(m1, m1, cw, X, E, P, o);
  }

  lemma FreshList(g0: G, g1: G, s: seq<Ref>, k: int)
    requires Swept(g0, g1) && 0 <= k <= |s| && forall j :: 0 <= j < k ==> Fresh(g0, s[j])
    ensures forall j :: 0 <= j < k ==> Fresh(g1, s[j])
  {
    forall j | 0 <= j < k ensures Fresh(g1, s[j]) {
      assert SweptAt(g0, g1, s[j]);
    }
  }

  /** Open upvalue lists only lose elements; the thread itself stays as it is. */
  ghost predicate OpenShrunk(g0: G, g1: G, t: Ref) {
    && g1.rootgc == g0.rootgc && t in g1.openupval
    && t in g1.objs && t in g1.marked && t in g0.marked && g1.marked[t] == g0.marked[t]
    && g1.uvhead <= g0.uvhead && g1.strt == g0.strt
    && forall t :: t in g1.openupval ==> t in g0.openupval && forall u :: u in g1.openupval[t] ==> u in g0.openupval[t]
  }

  lemma StringInHeap(g: G, h: int, k: int)
    requires Sound(g) && 0 <= h < |g.strt| && 0 <= k < |g.strt[h]|
    ensures g.strt[h][k] in g.marked && g.strt[h][k] in g.objs
  {
    assert BucketAt(g, h, k);
  }

  lemma StringWhite(g1: G, g2: G, main: Ref, h: nat, k: nat)
    requires Sound(g1) && FixedOnly(g1, main) && h < |g1.strt| && k < |g1.strt[h]| && g1.strt[h][k] in g1.marked
    requires forall j :: 0 <= j < k ==> Fresh(g1, g1.strt[h][j])
    requires var curr := g1.strt[h][k];
             Survives(g1.cw, g1.marked[curr]) && g2 == g1.(marked := g1.marked[curr := MakeWhite(g1.cw, g1.marked[curr])])
    ensures Sound(g2) && FixedOnly(g2, main) && Swept(g1, g2)
    ensures forall j :: 0 <= j < k + 1 ==> Fresh(g2, g2.strt[h][j])
  {
    hide Fresh, PaintAt, Swept, ClosedSet, Survives;
    assert BucketAt(g1, h, k);
    Whiten(g1, g2, g1.strt[h][k]);
    FreshList(g1, g2, g1.strt[h], k);
  }

  lemma StringFreed(g1: G, g2: G, main: Ref, h: nat, k: nat)
    requires Sound(g1) && FixedOnly(g1, main) && h < |g1.strt| && k < |g1.strt[h]| && g1.strt[h][k] in g1.marked
    requires forall j :: 0 <= j < k ==> Fresh(g1, g1.strt[h][j])
    requires var curr := g1.strt[h][k];
             && !Survives(g1.cw, g1.marked[curr])
             && g2 == g1.(objs := Without(g1.objs, curr), marked := Without(g1.marked, curr),
                          strt := g1.strt[h := g1.strt[h][..k] + g1.strt[h][k + 1..]])
    ensures Sound(g2) && FixedOnly(g2, main) && Swept(g1, g2)
    ensures forall j :: 0 <= j < k ==> Fresh(g2, g2.strt[h][j])
  {
    hide Fresh, PaintAt, Swept, ClosedSet, Survives;
    assert BucketAt(g1, h, k);
    DeadMeaning(g1, g1.strt[h][k]);
    FreeString(g1, g2, h, k);
    FreshList(g1, g2, g1.strt[h], k);
  }

  lemma OpenInHeap(g: G, t: Ref, k: int)
    requires Sound(g) && t in g.openupval && 0 <= k < |g.openupval[t]|
    ensures g.openupval[t][k] in g.marked && g.openupval[t][k] in g.objs
  {
    assert OpenAt(g, t, k);
  }

  lemma UpvalWhite(g1: G, g2: G, main: Ref, t: Ref, k: nat)
    requires Sound(g1) && FixedOnly(g1, main) && t in g1.openupval && k < |g1.openupval[t]| && g1.openupval[t][k] in g1.marked
    requires forall j :: 0 <= j < k ==> Fresh(g1, g1.openupval[t][j])
    requires var curr := g1.openupval[t][k];
             Survives(g1.cw, g1.marked[curr]) && g2 == g1.(marked := g1.marked[curr := MakeWhite(g1.cw, g1.marked[curr])])
    ensures Sound(g2) && FixedOnly(g2, main) && Swept(g1, g2) && OpenShrunk(g1, g2, t)
    ensures forall j :: 0 <= j < k + 1 ==> Fresh(g2, g2.openupval[t][j])
  {
    hide Fresh, PaintAt, Swept, ClosedSet, Survives;
    assert OpenAt(g1, t, k);
    Whiten(g1, g2, g1.openupval[t][k]);
    FreshList(g1, g2, g1.openupval[t], k);
  }

  lemma UpvalFreed(g1: G, g2: G, main: Ref, t: Ref, k: nat)
    requires Sound(g1) && FixedOnly(g1, main) && t in g1.openupval && k < |g1.openupval[t]| && g1.openupval[t][k] in g1.marked
    requires forall j :: 0 <= j < k ==> Fresh(g1, g1.openupval[t][j])
    requires var curr := g1.openupval[t][k];
             && !Survives(g1.cw, g1.marked[curr])
             && g2 == g1.(objs := Without(g1.objs, curr), marked := Without(g1.marked, curr), uvhead := g1.uvhead - {curr},
                          openupval := g1.openupval[t := g1.openupval[t][..k] + g1.openupval[t][k + 1..]])
    ensures Sound(g2) && FixedOnly(g2, main) && Swept(g1, g2) && OpenShrunk(g1, g2, t)
    ensures forall j :: 0 <= j < k ==> Fresh(g2, g2.openupval[t][j])
  {
    hide Fresh, PaintAt, Swept, ClosedSet, Survives;
    assert OpenAt(g1, t, k);
    DeadMeaning(g1, g1.openupval[t][k]);
    FreeOpen(g1, g2, t, k);
    OpenDistinct(g1, t);
    DropDistinct(g1.openupval[t], k);
    FreshList(g1, g2, g1.openupval[t], k);
  }

  lemma OpenShrunkTrans(g0: G, g1: G, g2: G, t: Ref)
    requires OpenShrunk(g0, g1, t) && OpenShrunk(g1, g2, t)
    ensures OpenShrunk(g0, g2, t)
  {
  }

  /** The objects still to be traversed. */
  ghost function Pending(m: M): set<Ref> {
    Whites(m.marked) + set r | r in m.gray
  }

  lemma PendingLess(m0: M, m1: M, m2: M, o: Ref)
    requires m0.gray != [] && o == m0.gray[0] && m1.gray == m0.gray[1..] && Distinct(m0.gray + m0.again)
    requires Whites(m1.marked) == Whites(m0.marked) && Grown(m1, m2) && NonWhite(m1.marked, o)
    ensures Pending(m2) < Pending(m0)
  {
    GrownWhites(m1, m2);
    PopDistinct(m0.gray, m0.again);
    assert m0.gray == [o] + m0.gray[1..];
    assert o in Pending(m0);
    assert o !in Whites(m2.marked) && o !in m2.gray;
  }

  ghost predicate SameFixed(marks0: Marks, marks1: Marks) {
    marks1.Keys == marks0.Keys && forall r :: r in marks0 ==> marks1[r].fixed == marks0[r].fixed
  }

  ghost function RefsOf(values: seq<Val>): set<Ref> {
    set v | v in values && v.Ref? :: v.r
  }

  lemma RefListed(values: seq<Val>, i: int)
    requires 0 <= i < |values| && values[i].Ref?
    ensures values[i].r in RefsOf(values)
  {
  }

  lemma RefsJoin(a: seq<Val>, b: seq<Val>)
    ensures RefsOf(a + b) == RefsOf(a) + RefsOf(b)
  {
  }

  lemma ThreadTable(g: G, t: Ref, P: set<Ref>)
    requires Sound(g) && ClosedSet(g.objs, g.objs.Keys) && ClosedSet(g.objs, P) && t in g.objs && t in P && g.objs[t].kind == KThread
    ensures |g.objs[t].fields| > 0 && RefsOf([g.objs[t].fields[0]]) <= P && RefsOf([g.objs[t].fields[0]]) <= g.objs.Keys
  {
    assert HomeAt(g, t);
    FieldInside(g.objs, P, t, 0);
  }

  lemma CycleStarts(g0: G, g1: G, m1: M, main: Ref, P: set<Ref>)
    requires Sound(g0) && FixedOnly(g0, main) && g1 == g0.(marked := g1.marked) && SameFixed(g0.marked, g1.marked)
    requires Marking(m1, g1.cw, {}, g1.objs.Keys, P) && m1.objs == g1.objs && m1.marked == g1.marked && g1.roots <= P
    ensures Sound(g1) && FixedOnly(g1, main) && Preserved(g0, g1) && Marking(m1, g1.cw, {}, g1.objs.Keys, g1.objs.Keys)
  {
    hide Marking, Shape, ClosedSet, PaintAt, FixedOnly;
    MarkingWider(m1, g1.cw, g1.objs.Keys, P);
    ShapeMarks(g0, g1);
    MarkingSound(g1, m1, {}, g1.objs.Keys, P);
    FixedStays(g0, g1, main);
    SameObjects(g0, g1);
  }

  /** A sweep can start at any time: what is not dead is not freed. */
  lemma SweepAgain(g: G, m0: M, m1: M, phase: GcState, k: nat, n: nat, main: Ref, running: Ref, early: set<Ref>)
    requires InvOf(g, m0, phase, k, n, main, running, early)
    ensures InvOf(g, m1, GCSsweepstring, 0, 0, main, running, early)
  {
    hide Clean, Marking, Sound, RootsDone, FixedOnly;
  }

  lemma Flipped(g0: G, g1: G, main: Ref)
    requires FixedOnly(g0, main) && g1 == g0.(cw := g1.cw)
    ensures FixedOnly(g1, main) && StringsDone(g1, 0)
  {
  }

  lemma FixedStays(g0: G, g1: G, main: Ref)
    requires FixedOnly(g0, main) && SameFixed(g0.marked, g1.marked) && g1.objs == g0.objs && g1.roots == g0.roots
    ensures FixedOnly(g1, main)
  {
  }

  /** Reading any live object, or through any live upvalue, gives what it gave before. */
  ghost predicate SameValues(g0: G, g1: G) {
    && g1.roots == g0.roots && g1.cw == g0.cw && Alive(g0) <= Alive(g1)
    && forall r :: r in Alive(g0) ==> r in g1.objs && Intact(g0.objs, g1.objs, r)
  }

  /** Objects were only put in front of the root list, and the sweep cursor still stands before the same one. */
  ghost predicate CursorKept(root0: seq<Ref>, n0: nat, root1: seq<Ref>, n1: nat) {
    |root1| >= |root0| && root1[|root1| - |root0|..] == root0 && n1 == if n0 > 0 then n0 + |root1| - |root0| else 0
  }

  lemma RootKept(root0: seq<Ref>, n0: nat, root1: seq<Ref>, n1: nat)
    requires CursorKept(root0, n0, root1, n1) && n0 < |root0|
    ensures |root1| >= |root0| && root1[|root1| - |root0| + n0] == root0[n0] && (n1 == 0 || n1 == |root1| - |root0| + n0)
  {
    assert root1[|root1| - |root0|..][n0] == root0[n0];
  }

  lemma CursorTrans(root0: seq<Ref>, n0: nat, root1: seq<Ref>, n1: nat, root2: seq<Ref>, n2: nat)
    requires CursorKept(root0, n0, root1, n1) && CursorKept(root1, n1, root2, n2)
    ensures CursorKept(root0, n0, root2, n2)
  {
    assert root2[|root2| - |root0|..] == root2[|root2| - |root1|..][|root1| - |root0|..];
  }

  /** What any part of a sweep keeps. */
  lemma AfterSweep(g0: G, g1: G, main: Ref, n: int)
    requires Swept(g0, g1) && FixedOnly(g0, main) && g0.roots <= Alive(g0)
    ensures FixedOnly(g1, main) && (StringsDone(g0, n) ==> StringsDone(g1, n))
    ensures Clean(g0) ==> Clean(g1)
    ensures forall r :: r in g0.roots ==> r in g1.objs && r in g0.objs && g1.objs[r].kind == g0.objs[r].kind
  {
    forall r ensures SweptAt(g0, g1, r) {}
    if StringsDone(g0, n) {
      StringsStayDone(g0, g1, n);
    }
    if Clean(g0) {
      forall r | r in g1.objs ensures Fresh(g1, r) { assert SweptAt(g0, g1, r); }
    }
    forall r | r in g1.objs && r in g1.marked && g1.marked[r].fixed ensures g1.objs[r].kind == KString || r == main {
      assert SweptAt(g0, g1, r);
    }
    forall r | r in g0.roots ensures r in g1.objs && r in g0.objs && g1.objs[r].kind == g0.objs[r].kind {
      assert r in Alive(g0) && SweptAt(g0, g1, r);
    }
  }

  lemma UpvalNotFixed(g: G, main: Ref, u: Ref)
    requires FixedOnly(g, main) && u in g.objs && u in g.marked && IsOpen(g.objs[u]) && main in g.objs && g.objs[main].kind == KThread
    ensures !g.marked[u].fixed
  {
  }

  /** A part of a sweep that leaves the root list alone. */
  lemma SweptKeeps(g0: G, m0: M, g1: G, m1: M, phase: GcState, k: nat, n: nat, main: Ref, running: Ref, early: set<Ref>)
    requires InvOf(g0, m0, phase, k, n, main, running, early) && phase != GCSpropagate && running in g0.roots
    requires Sound(g1) && Swept(g0, g1) && |g1.strt| == |g0.strt| && g1.rootgc == g0.rootgc
    requires forall t :: t in g1.openupval ==> t in g0.openupval && forall u :: u in g1.openupval[t] ==> u in g0.openupval[t]
    ensures InvOf(g1, m1, phase, k, n, main, running, early)
  {
    hide Clean, Shape, ClosedSet, StringsDone, RootsDone, FixedOnly, Swept;
    MainRoot(g0, main);
    AfterSweep(g0, g1, main, k);
    AfterSweep(g0, g1, main, |g0.strt|);
    if phase == GCSsweep { RootsStayDone(g0, g1, n); }
  }

  lemma MainRoot(g: G, main: Ref)
    requires FixedOnly(g, main)
    ensures main in g.roots
  {
  }

  lemma FreedKeeps(g0: G, m0: M, g1: G, m1: M, k: nat, n: nat, main: Ref, running: Ref, early: set<Ref>, i: nat, curr: Ref)
    requires InvOf(g0, m0, GCSsweep, k, n, main, running, early) && running in g0.roots
    requires i < |g0.rootgc| && curr == g0.rootgc[i] && curr in g0.marked && (n == 0 || n == i)
    requires curr !in Alive(g0) && !g0.marked[curr].fixed && (curr in g0.openupval ==> g0.openupval[curr] == [])
    requires g1 == g0.(objs := Without(g0.objs, curr), marked := Without(g0.marked, curr), rootgc := g0.rootgc[..i] + g0.rootgc[i + 1..],
                       openupval := Without(g0.openupval, curr))
    ensures InvOf(g1, m1, GCSsweep, k, n, main, running, early) && Swept(g0, g1)
  {
    hide Shape, ClosedSet, StringsDone, RootsDone, FixedOnly, Swept, Alive, PaintAt;
    MainRoot(g0, main);
    ObjectFreed(g0, g1, main, i, n, curr);
  }

  lemma OpenedKeeps(g0: G, m0: M, g1: G, m1: M, phase: GcState, k: nat, n: nat, main: Ref, running: Ref, early: set<Ref>, t: Ref, i: nat, pp: nat, r: Ref)
    requires InvOf(g0, m0, phase, k, n, main, running, early) && t in Alive(g0) && Opened(g0, g1, t, i, pp, r)
    requires m0.objs == g0.objs && m0.marked == g0.marked && m1 == m0.(objs := g1.objs, marked := g1.marked)
    ensures InvOf(g1, m1, phase, k, n, main, running, early) && r in Alive(g1)
  {
    hide Clean, Marking, Shape, ClosedSet, StringsDone, RootsDone, FixedOnly, Alive, PaintAt;
    OpenKeeps(g0, g1, t, i, pp, r, main, k, n);
    if phase == GCSpropagate { OpenMarks(g0, m0, m1, t, i, r); }
  }

  lemma InternedKeeps(g0: G, m0: M, g1: G, m1: M, phase: GcState, k: nat, n: nat, main: Ref, running: Ref, early: set<Ref>, r: Ref, h: nat)
    requires InvOf(g0, m0, phase, k, n, main, running, early) && Interned(g0, g1, r, h)
    requires m0.objs == g0.objs && m0.marked == g0.marked && m1 == m0.(objs := g1.objs, marked := g1.marked)
    ensures InvOf(g1, m1, phase, k, n, main, running, early) && r in Alive(g1)
  {
    hide Clean, Marking, Shape, ClosedSet, StringsDone, RootsDone, FixedOnly, Alive, PaintAt;
    StringKeeps(g0, g1, r, h, main, k, n);
    if phase == GCSpropagate { NewMarks(g0, m0, m1, r, Obj(KString, [], Closed, h)); }
  }

  lemma LinkedKeeps(g0: G, m0: M, g1: G, m1: M, phase: GcState, k: nat, n: nat, main: Ref, running: Ref, early: set<Ref>, r: Ref, o: Obj)
    requires InvOf(g0, m0, phase, k, n, main, running, early) && Linked(g0, g1, r, o, g0.cw) && AllIn(o.fields, Alive(g0))
    requires m0.objs == g0.objs && m0.marked == g0.marked && m1 == m0.(objs := g1.objs, marked := g1.marked)
    ensures InvOf(g1, m1, phase, k, Shifted(n), main, running, early) && r in Alive(g1)
  {
    hide Clean, Marking, Shape, ClosedSet, StringsDone, RootsDone, FixedOnly, Alive, PaintAt, AllIn;
    LinkKeeps(g0, g1, r, o, main, k, n);
    if phase == GCSpropagate { NewMarks(g0, m0, m1, r, o); }
  }

  lemma FreeTopKeeps(g0: G, m0: M, g1: G, m1: M, phase: GcState, k: nat, n: nat, main: Ref, running: Ref, early: set<Ref>, t: Ref)
    requires InvOf(g0, m0, phase, k, n, main, running, early) && phase != GCSpropagate && running in g0.roots
    requires t in g0.openupval && g0.openupval[t] != [] && g0.openupval[t][0] !in Alive(g0)
    requires var u := g0.openupval[t][0];
             g1 == g0.(objs := Without(g0.objs, u), marked := Without(g0.marked, u), uvhead := g0.uvhead - {u},
                       openupval := g0.openupval[t := g0.openupval[t][1..]])
    ensures InvOf(g1, m1, phase, k, n, main, running, early)
    ensures SameValues(g0, g1) && Swept(g0, g1) && Alive(g1) == Alive(g0) && |g1.uvhead| < |g0.uvhead|
  {
    hide PhaseOf, Shape, ClosedSet, FixedOnly;
    var u := g0.openupval[t][0];
    UpvalPlace(g0, t, 0);
    UpvalNotFixed(g0, main, u);
    assert g0.openupval[t][..0] + g0.openupval[t][1..] == g0.openupval[t][1..];
    FreeOpen(g0, g1, t, 0);
    SweptKeeps(g0, m0, g1, m1, phase, k, n, main, running, early);
    forall r | r in Alive(g0) ensures r in g1.objs && Intact(g0.objs, g1.objs, r) { assert SweptAt(g0, g1, r); }
    assert u in g0.uvhead && g1.uvhead < g0.uvhead;
    ProperSize(g1.uvhead, g0.uvhead);
  }

  lemma AfterClose(g0: G, g1: G, t: Ref, m: Mark, main: Ref, k: int, n: nat)
    requires Sound(g0) && ClosedTop(g0, g1, t, m) && g0.openupval[t][0] in Alive(g0) && FixedOnly(g0, main)
    requires main in g0.objs && g0.objs[main].kind == KThread
    requires var u := g0.openupval[t][0];
             OneColour(m) && !IsDead(g0.cw, m) && m.fixed == g0.marked[u].fixed && (Fresh(g0, u) ==> m == g0.marked[u])
    ensures Sound(g1) && FixedOnly(g1, main) && Alive(g1) == Alive(g0) && Swept(g0, g1) && SameValues(g0, g1)
    ensures StringsDone(g0, k) ==> StringsDone(g1, k)
    ensures StringsDone(g0, |g0.strt|) ==> StringsDone(g1, |g0.strt|)
    ensures Clean(g0) ==> Clean(g1)
    ensures forall r :: r in g0.roots ==> r in g1.objs && r in g0.objs && g1.objs[r].kind == g0.objs[r].kind
    ensures RootsDone(g0, n) && n <= |g0.rootgc| && IsWhite(m) ==> RootsDone(g1, Shifted(n))
  {
    UpvalPlace(g0, t, 0);
    CloseOpen(g0, g1, t, m);
    AfterSweep(g0, g1, main, k);
    AfterSweep(g0, g1, main, |g0.strt|);
    if RootsDone(g0, n) && n <= |g0.rootgc| && IsWhite(m) {
      assert OpenAt(g0, g0.openupval[t][0], 0);
      RootsShift(g0, g1, n, g0.openupval[t][0]);
    }
    forall r | r in Alive(g0) ensures r in g1.objs && Intact(g0.objs, g1.objs, r) {
      assert SweptAt(g0, g1, r);
    }
  }

  /** A gray upvalue that is closed while the heap is swept becomes white; in the clean phases none is gray. */
  lemma SweptClose(g0: G, m0: M, g1: G, m1: M, phase: GcState, k: nat, n: nat, main: Ref, running: Ref, early: set<Ref>, t: Ref)
    requires InvOf(g0, m0, phase, k, n, main, running, early) && phase != GCSpropagate && running in g0.roots
    requires t in g0.openupval && g0.openupval[t] != [] && g0.openupval[t][0] in Alive(g0)
    requires var u := g0.openupval[t][0];
             ClosedTop(g0, g1, t, if IsGray(g0.marked[u]) then MakeWhite(g0.cw, g0.marked[u]) else g0.marked[u])
    ensures InvOf(g1, m1, phase, k, Shifted(n), main, running, early)
    ensures SameValues(g0, g1) && Swept(g0, g1) && Alive(g1) == Alive(g0)
  {
    hide Clean, Shape, ClosedSet, StringsDone, RootsDone, FixedOnly, Swept, SameValues, Fresh, PaintAt;
    var u := g0.openupval[t][0];
    MainRoot(g0, main);
    UpvalPlace(g0, t, 0);
    ClosedColour(g0, u);
    if IsGray(g0.marked[u]) { GrayNotClean(g0, u); }
    AfterClose(g0, g1, t, g1.marked[u], main, k, n);
  }

  /** Marking changes colours only. */
  lemma AfterMarking(g0: G, g1: G, g2: G, m1: M, m2: M, main: Ref)
    requires FixedOnly(g1, main) && (m2 == m1 || (Grown(m1, m2) && Alive(g2) == g2.objs.Keys)) && m1.marked == g1.marked && m2.marked == g2.marked && m1.objs == g1.objs
    requires g2 == g1.(marked := g2.marked) && SameValues(g0, g1)
    ensures FixedOnly(g2, main) && Marked(m1) <= Marked(m2) && SameValues(g0, g2)
  {
  }

  lemma DetachKeeps(g0: G, m0: M, g1: G, m1: M, k: nat, n: nat, main: Ref, running: Ref, early: set<Ref>, t: Ref)
    requires InvOf(g0, m0, GCSpropagate, k, n, main, running, early) && running in g0.roots
    requires m0.objs == g0.objs && m0.marked == g0.marked && m1 == m0.(objs := g1.objs, marked := g1.marked)
    requires t in g0.openupval && g0.openupval[t] != [] && g0.openupval[t][0] in g0.marked
    requires var u := g0.openupval[t][0];
             ClosedTop(g0, g1, t, if IsGray(g0.marked[u]) then Gray2Black(g0.marked[u]) else g0.marked[u])
    ensures Sound(g1) && FixedOnly(g1, main) && ThreadsOf(g1, main, running) && |g1.strt| > 0
    ensures g1.objs.Keys == g0.objs.Keys && SameValues(g0, g1) && Marked(m0) <= Marked(m1)
    ensures var u := g0.openupval[t][0];
            && u in g1.objs && u in g1.marked && FieldsOf(g1.objs, u) == FieldsOf(g0.objs, u)
            && Marking(m1, g0.cw, if IsBlack(g1.marked[u]) then {u} else {}, g1.objs.Keys, g1.objs.Keys)
  {
    hide Clean, Marking, Shape, ClosedSet, SameValues, Swept;
    var u := g0.openupval[t][0];
    MainRoot(g0, main);
    UpvalPlace(g0, t, 0);
    MarkingSound(g0, m0, {}, g0.objs.Keys, g0.objs.Keys);
    assert PaintAt(g0, u);
    assert g0.marked[u := g0.marked[u]] == g0.marked;
    CloseMarking(m0, m1, g0.cw, g0.objs.Keys, g0.objs.Keys, u, IsGray(g0.marked[u]));
    assert g1.objs.Keys == g0.objs.Keys;
    AfterClose(g0, g1, t, g1.marked[u], main, 0, 0);
  }

  lemma SweptRefl(g: G)
    requires Shape(g)
    ensures Swept(g, g)
  {
  }

  lemma LevelBelow(g: G, t: Ref, level: nat)
    requires Shape(g) && t in g.openupval
    requires g.openupval[t] != [] ==> var u := g.openupval[t][0]; u in g.objs && IsOpen(g.objs[u]) ==> g.objs[u].slot.i < level
    ensures forall u :: u in g.openupval[t] ==> u in g.objs && IsOpen(g.objs[u]) && g.objs[u].slot.i < level
    ensures forall u :: u in g.objs && IsOpen(g.objs[u]) && g.objs[u].slot.thread == t ==> g.objs[u].slot.i < level
  {
    forall u | u in g.objs && IsOpen(g.objs[u]) && g.objs[u].slot.thread == t ensures u in g.openupval[t] { assert HomeAt(g, u); }
    forall u | u in g.openupval[t] ensures u in g.objs && IsOpen(g.objs[u]) && g.objs[u].slot.i < level {
      var i :| 0 <= i < |g.openupval[t]| && g.openupval[t][i] == u;
      assert OpenAt(g, t, i) && OpenAt(g, t, 0) && OrderAt(g, t, 0, i);
    }
  }

  lemma RootPlace(g: G, i: int)
    requires Shape(g) && 0 <= i < |g.rootgc|
    ensures var r := g.rootgc[i];
            && r in g.objs && r in g.marked && g.objs[r].kind != KString && !IsOpen(g.objs[r])
            && (g.objs[r].kind == KThread <==> r in g.openupval)
  {
    assert RootAt(g, i) && HomeAt(g, g.rootgc[i]) && OpenAt(g, g.rootgc[i], 0);
  }

  lemma AfterOpenSweep(g0: G, g1: G, main: Ref, n: nat, curr: Ref)
    requires Sound(g0) && FixedOnly(g0, main) && Swept(g0, g1) && (g1 == g0 || OpenShrunk(g0, g1, curr))
    requires n < |g0.rootgc| && curr == g0.rootgc[n] && RootsDone(g0, n) && StringsDone(g0, |g0.strt|)
    ensures RootsDone(g1, n) && StringsDone(g1, |g0.strt|) && curr in g1.marked
    ensures forall r :: r in g0.roots ==> r in g1.objs && r in g0.objs && g1.objs[r].kind == g0.objs[r].kind
  {
    RootPlace(g0, n);
    AfterSweep(g0, g1, main, |g0.strt|);
    RootsStayDone(g0, g1, n);
  }

  lemma SubsetSize(A: set<Ref>, B: set<Ref>)
    requires A <= B
    ensures |A| <= |B|
  {
    assert A + (B - A) == B;
  }

  lemma ObjectWhite(g0: G, g1: G, main: Ref, n: nat, curr: Ref)
    requires Sound(g0) && FixedOnly(g0, main) && n < |g0.rootgc| && curr == g0.rootgc[n] && curr in g0.marked
    requires RootsDone(g0, n) && StringsDone(g0, |g0.strt|) && Survives(g0.cw, g0.marked[curr])
    requires curr in g0.openupval ==> forall k :: 0 <= k < |g0.openupval[curr]| ==> Fresh(g0, g0.openupval[curr][k])
    requires g1 == g0.(marked := g0.marked[curr := MakeWhite(g0.cw, g0.marked[curr])])
    ensures Sound(g1) && Swept(g0, g1) && FixedOnly(g1, main) && RootsDone(g1, n + 1) && StringsDone(g1, |g0.strt|)
    ensures forall r :: r in g0.roots ==> r in g1.objs && r in g0.objs && g1.objs[r].kind == g0.objs[r].kind
  {
    RootPlace(g0, n);
    Whiten(g0, g1, curr);
    AfterSweep(g0, g1, main, |g0.strt|);
    RootsStayDone(g0, g1, n);
    if curr in g0.openupval {
      FreshList(g0, g1, g0.openupval[curr], |g0.openupval[curr]|);
    }
    RootsMoreDone(g1, n);
  }

  lemma ObjectFreed(g0: G, g1: G, main: Ref, k: nat, n: nat, curr: Ref)
    requires Sound(g0) && FixedOnly(g0, main) && k < |g0.rootgc| && curr == g0.rootgc[k] && curr in g0.marked
    requires n <= |g0.rootgc| && RootsDone(g0, n) && StringsDone(g0, |g0.strt|) && (n == 0 || n == k)
    requires curr !in Alive(g0) && !g0.marked[curr].fixed && (curr in g0.openupval ==> g0.openupval[curr] == [])
    requires g1 == g0.(objs := Without(g0.objs, curr), marked := Without(g0.marked, curr), rootgc := g0.rootgc[..k] + g0.rootgc[k + 1..],
                       openupval := Without(g0.openupval, curr))
    ensures Sound(g1) && Swept(g0, g1) && FixedOnly(g1, main) && RootsDone(g1, n) && StringsDone(g1, |g0.strt|)
    ensures forall r :: r in g0.roots ==> r in g1.objs && r in g0.objs && g1.objs[r].kind == g0.objs[r].kind
  {
    FreeRoot(g0, g1, k);
    AfterSweep(g0, g1, main, |g0.strt|);
    if n == k {
      RootsFreed(g0, g1, n);
    }
  }

  /** The mask test of sweeplist, for an object in the heap. */
  lemma DeadMeaning(g: G, r: Ref)
    requires Sound(g) && r in g.marked && r in g.objs
    ensures Survives(g.cw, g.marked[r]) <==> r in Alive(g) || g.marked[r].fixed
  {
    assert PaintAt(g, r);
    SurvivesMeaning(g.cw, g.marked[r]);
  }

  lemma CurrentSwept(g0: G, g1: G, r: Ref)
    requires Swept(g0, g1) && r in g0.marked && r in g1.objs
    ensures r in g1.marked && g1.marked[r].fixed == g0.marked[r].fixed
  {
    assert SweptAt(g0, g1, r);
  }

  /** Everything reachable is still there, with the same references. */
  ghost predicate Preserved(g0: G, g1: G) {
    && g1.roots == g0.roots
    && forall r :: Reachable(g0.objs, g0.roots, r) ==> r in g0.objs && r in g1.objs && Intact(g0.objs, g1.objs, r)
  }

  /** Whoever reads an object, or through an upvalue, finds what was there. */
  ghost predicate Intact(objs0: Objs, objs1: Objs, r: Ref)
    requires r in objs0 && r in objs1
  {
    SameOrClosed(objs0[r], objs1[r]) && FieldsOf(objs1, r) == FieldsOf(objs0, r)
  }

  lemma SweptPreserves(g0: G, g1: G)
    requires Sound(g0) && Swept(g0, g1)
    ensures Preserved(g0, g1)
  {
    SoundReachable(g0);
    forall r | Reachable(g0.objs, g0.roots, r) ensures r in g0.objs && r in g1.objs && Intact(g0.objs, g1.objs, r) {
      assert r in Alive(g0) && SweptAt(g0, g1, r);
    }
  }

  lemma BucketDone(g: G, h: nat)
    requires Shape(g) && h < |g.strt| && StringsDone(g, h) && forall k :: 0 <= k < |g.strt[h]| ==> Fresh(g, g.strt[h][k])
    ensures StringsDone(g, h + 1)
  {
    var n := h + 1;
    forall r ensures StringDoneAt(g, n, r) {
      assert StringDoneAt(g, h, r) && HomeAt(g, r);
    }
  }

  lemma BucketLeft(g: G, m: M, h: nat, n: nat, early: set<Ref>)
    requires PhaseOf(g, m, GCSsweepstring, h, n, early)
    ensures h < |g.strt|
  {
  }

  /** A bucket is swept; after the last one the other objects follow. */
  lemma BucketKeeps(g0: G, m0: M, g1: G, m1: M, h: nat, n: nat, main: Ref, running: Ref, early: set<Ref>)
    requires InvOf(g0, m0, GCSsweepstring, h, n, main, running, early) && running in g0.roots
    requires Sound(g1) && FixedOnly(g1, main) && Swept(g0, g1) && |g1.strt| == |g0.strt|
    requires forall k :: 0 <= k < |g1.strt[h]| ==> Fresh(g1, g1.strt[h][k])
    ensures InvOf(g1, m1, if h + 1 >= |g1.strt| then GCSsweep else GCSsweepstring, h + 1, n, main, running, early)
  {
    hide Shape, ClosedSet, StringsDone, FixedOnly, Swept, PaintAt, Fresh;
    MainRoot(g0, main);
    AfterSweep(g0, g1, main, h);
    BucketDone(g1, h);
    NothingSwept(g1);
  }

  lemma NothingSwept(g: G)
    ensures RootsDone(g, 0)
  {
  }

  lemma MarkingWider(m: M, cw: Mark, E: set<Ref>, P: set<Ref>)
    requires Marking(m, cw, {}, E, P)
    ensures Marking(m, cw, {}, E, m.objs.Keys)
  {
  }

  lemma ProperSize(A: set<Ref>, B: set<Ref>)
    requires A < B
    ensures |A| < |B|
  {
    assert A + (B - A) == B && B - A != {};
  }

  /** After a cycle: what was bounded or fixed. */
  ghost predicate CollectedTo(g0: G, g1: G, P: set<Ref>) {
    forall r :: (r in g1.objs ==> r in P || (r in g0.marked && g0.marked[r].fixed)) &&
                (r in g0.objs && r in g0.marked && g0.marked[r].fixed ==> r in g1.objs)
  }

  lemma CycleResult(g0: G, g1: G, g2: G, P: set<Ref>)
    requires Sound(g0) && Sound(g1) && Swept(g1, g2) && g1.objs == g0.objs && g1.roots == g0.roots && SameFixed(g0.marked, g1.marked)
    requires Alive(g1) <= P && Clean(g2)
    ensures CollectedTo(g0, g2, P) && Preserved(g0, g2)
  {
    SweptPreserves(g1, g2);
    forall r | r in g2.objs ensures r in P || (r in g0.marked && g0.marked[r].fixed) {
      assert SweptAt(g1, g2, r) && r in Alive(g2);
    }
    forall r | r in g0.objs && r in g0.marked && g0.marked[r].fixed ensures r in g2.objs {
      assert SweptAt(g1, g2, r);
    }
  }

  lemma ReachBound(g: G)
    requires Sound(g) && Clean(g)
    ensures ClosedSet(g.objs, ReachableSet(g.objs, g.roots)) && g.roots <= ReachableSet(g.objs, g.roots)
  {
    assert Alive(g) == g.objs.Keys by {
      forall r | r in g.objs ensures r in Alive(g) { assert Fresh(g, r); }
    }
    ReachableClosed(g.objs, g.roots);
    forall r | r in g.roots ensures r in ReachableSet(g.objs, g.roots) {
      RootReachable(g.objs, g.roots, r);
    }
  }

  lemma FullResult(g0: G, g1: G, g2: G, P: set<Ref>)
    requires Sound(g0) && Swept(g0, g1) && CollectedTo(g1, g2, P) && P == ReachableSet(g1.objs, g1.roots) && Preserved(g1, g2)
    requires Shape(g1)
    ensures Preserved(g0, g2)
    ensures forall r :: r in g2.objs <==> Reachable(g0.objs, g0.roots, r) || (r in g0.objs && r in g0.marked && g0.marked[r].fixed)
  {
    SweptPreserves(g0, g1);
    forall r ensures SameEdgesAt(g0.objs, g1.objs, Alive(g0), r) {
      assert SweptAt(g0, g1, r);
    }
    SameReachable(g0.objs, g1.objs, g0.roots, Alive(g0));
    forall r ensures r in g2.objs <==> Reachable(g0.objs, g0.roots, r) || (r in g0.objs && r in g0.marked && g0.marked[r].fixed) {
      assert SweptAt(g0, g1, r);
    }
  }

  lemma SameObjects(g0: G, g1: G)
    requires Sound(g0) && g1.objs == g0.objs && g1.roots == g0.roots
    ensures Preserved(g0, g1)
  {
    SoundReachable(g0);
  }

  lemma SameFixedTrans(m0: Marks, m1: Marks, m2: Marks)
    requires (SameFixed(m0, m1) || m1 == m0) && (SameFixed(m1, m2) || m2 == m1)
    ensures SameFixed(m0, m2)
  {
  }

  lemma MarksFixed(g0: G, g1: G, m0: M, m1: M, main: Ref)
    requires FixedOnly(g0, main) && Grown(m0, m1) && m0.marked == g0.marked && m1.marked == g1.marked && m0.objs == g0.objs
    requires g1 == g0.(marked := g1.marked)
    ensures FixedOnly(g1, main) && Marked(m0) <= Marked(m1)
  {
  }

  /** During a sweep a black object is made white early, just to avoid other barriers. */
  lemma BarrierWhite(g0: G, g1: G, main: Ref, o: Ref, k: int, n: nat)
    requires Sound(g0) && FixedOnly(g0, main) && o in Alive(g0) && main in g0.objs
    requires g1 == g0.(marked := g0.marked[o := MakeWhite(g0.cw, g0.marked[o])])
    ensures Sound(g1) && FixedOnly(g1, main)
    ensures StringsDone(g0, k) ==> StringsDone(g1, k)
    ensures StringsDone(g0, |g0.strt|) ==> StringsDone(g1, |g0.strt|)
    ensures RootsDone(g0, n) ==> RootsDone(g1, n)
  {
    DeadMeaning(g0, o);
    Whiten(g0, g1, o);
    AfterSweep(g0, g1, main, k);
    AfterSweep(g0, g1, main, |g0.strt|);
    if RootsDone(g0, n) {
      RootsStayDone(g0, g1, n);
    }
  }

  lemma FieldsAlive(g: G, o: Ref, i: int, v: Val)
    requires Sound(g) && o in Alive(g) && !IsOpen(g.objs[o]) && 0 <= i < |g.objs[o].fields| && (v.Ref? ==> v.r in Alive(g))
    ensures AllIn(g.objs[o].fields[i := v], Alive(g)) && g.objs[o].kind != KString
    ensures g.objs[o].kind == KThread ==> forall u :: u in g.objs && IsOpen(g.objs[u]) && g.objs[u].slot.thread == o ==> g.objs[u].slot.i < |g.objs[o].fields|
  {
    assert LeafAt(g.objs, o);
    forall j | 0 <= j < |g.objs[o].fields| && g.objs[o].fields[j].Ref? ensures g.objs[o].fields[j].r in Alive(g) {
      assert g.objs[o].fields[j] in FieldsOf(g.objs, o);
      assert ClosedAt(g.objs, Alive(g), o, g.objs[o].fields[j].r);
    }
    forall u | u in g.objs && IsOpen(g.objs[u]) && g.objs[u].slot.thread == o ensures g.objs[u].slot.i < |g.objs[o].fields| {
      assert HomeAt(g, u);
    }
  }

  lemma BackKeeps(g0: G, m0: M, g1: G, m1: M, phase: GcState, k: nat, n: nat, main: Ref, running: Ref, early: set<Ref>, o: Ref)
    requires Sound(g0) && FixedOnly(g0, main) && ThreadsOf(g0, main, running) && |g0.strt| > 0
    requires o in Alive(g0) && g0.objs[o].kind == KTable && IsBlack(g0.marked[o]) && m0.objs == g0.objs && m0.marked == g0.marked
    requires if phase == GCSpropagate then early <= Marked(m0) && Marking(m0, g0.cw, {o}, g0.objs.Keys, g0.objs.Keys)
             else PhaseOf(g0, m0, phase, k, n, early)
    requires g1 == g0.(marked := g0.marked[o := Black2Gray(g0.marked[o])])
    requires m1 == m0.(marked := g1.marked, again := [o] + m0.again)
    ensures InvOf(g1, m1, phase, k, n, main, running, early)
  {
    hide Shape, ClosedSet, StringsDone, RootsDone, Tricolour, Settled;
    assert phase != GCSpause && phase != GCSfinalize by { assert o in g0.objs; }
    GraySound(g0, g1, o);
    StillDone(g0, g1, k, n);
    StillDone(g0, g1, |g0.strt|, n);
    if phase == GCSpropagate { BackMarking(m0, m1, g0.cw, g0.objs.Keys, o); }
  }

  lemma StoredChildren(m0: M, m1: M, cw: Mark, o: Ref, fields: seq<Val>, v: Val)
    requires Marking(m0, cw, {}, m0.objs.Keys, m0.objs.Keys) && o in m0.objs && !IsOpen(m0.objs[o])
    requires m1 == m0.(objs := m0.objs[o := m0.objs[o].(fields := fields)])
    requires forall w :: w in fields ==> w == v || w in m0.objs[o].fields
    ensures IsBlack(m0.marked[o]) ==> forall w :: w in FieldsOf(m1.objs, o) ==> w == v || (w.Ref? ==> NonWhite(m1.marked, w.r))
  {
    if IsBlack(m0.marked[o]) {
      forall w | w in FieldsOf(m1.objs, o) && w != v && w.Ref? ensures NonWhite(m1.marked, w.r) {
        assert w in FieldsOf(m0.objs, o) && w == Val.Ref(w.r);
        assert BlackAt(m0, {}, o, w.r);
      }
    }
  }

  lemma StackAlive(g: G, t: Ref, slots: seq<Val>)
    requires Sound(g) && t in Alive(g) && g.objs[t].kind == KThread
    requires forall w :: w in slots && w.Ref? ==> w.r in Alive(g)
    ensures |g.objs[t].fields| > 0 && AllIn([g.objs[t].fields[0]] + slots, Alive(g)) && !IsOpen(g.objs[t])
  {
    assert HomeAt(g, t);
    var fields := [g.objs[t].fields[0]] + slots;
    forall j | 0 <= j < |fields| && fields[j].Ref? ensures fields[j].r in Alive(g) {
      if j == 0 {
        assert fields[0] in FieldsOf(g.objs, t) && ClosedAt(g.objs, Alive(g), t, fields[0].r);
      } else {
        assert fields[j] in slots;
      }
    }
  }

  lemma StoreFixed(g0: G, g1: G, main: Ref, o: Ref)
    requires FixedOnly(g0, main) && o in g0.objs && g1.marked == g0.marked && g1.roots == g0.roots
    requires g1.objs.Keys == g0.objs.Keys && forall r :: r in g0.objs ==> g1.objs[r].kind == g0.objs[r].kind
    ensures FixedOnly(g1, main)
  {
  }

  lemma ThreadNotBlack(m: M, cw: Mark, t: Ref)
    requires Marking(m, cw, {}, m.objs.Keys, m.objs.Keys) && t in m.objs && m.objs[t].kind == KThread
    ensures t in m.marked && !IsBlack(m.marked[t])
  {
    assert KindAt(m, t);
  }

  lemma NewRoots(g0: G, g1: G, t: Ref, handler: Val, basic: seq<Val>, early: set<Ref>, main: Ref, k: int, n: int)
    requires Sound(g0) && early <= g0.roots && g1 == g0.(roots := early + RefsOf([Val.Ref(t), handler] + basic))
    requires t in Alive(g0) && (handler.Ref? ==> handler.r in Alive(g0)) && forall v :: v in basic && v.Ref? ==> v.r in Alive(g0)
    requires FixedOnly(g0, main) && main in early
    ensures Sound(g1) && FixedOnly(g1, main)
    ensures StringsDone(g0, k) ==> StringsDone(g1, k)
    ensures RootsDone(g0, n) ==> RootsDone(g1, n)
    ensures Clean(g0) ==> Clean(g1)
  {
    var late := [Val.Ref(t), handler] + basic;
    forall v | v in late && v.Ref? ensures v.r in Alive(g0) {
      if v !in basic { assert v in [Val.Ref(t), handler]; }
    }
    ShapeRoots(g0, g1);
    assert Alive(g1) == Alive(g0);
    forall r ensures PaintAt(g1, r) && (Fresh(g1, r) <==> Fresh(g0, r)) { assert PaintAt(g0, r); }
    StillDone(g0, g1, k, n);
  }

  lemma ShapeRoots(g0: G, g1: G)
    requires Shape(g0) && g1 == g0.(roots := g1.roots)
    ensures Shape(g1)
  {
    forall r ensures HomeAt(g1, r) && HeadAt(g1, r) { assert HomeAt(g0, r) && HeadAt(g0, r); }
    forall i: int ensures RootAt(g1, i) && StringAt(g1, i) { assert RootAt(g0, i) && StringAt(g0, i); }
    forall h: int, i: int ensures BucketAt(g1, h, i) { assert BucketAt(g0, h, i); }
    forall t, i ensures OpenAt(g1, t, i) { assert OpenAt(g0, t, i); }
    forall t, i, j ensures OrderAt(g1, t, i, j) { assert OrderAt(g0, t, i, j); }
  }

  lemma LinkKeeps(g0: G, g1: G, r: Ref, o: Obj, main: Ref, k: int, n: nat)
    requires Sound(g0) && FixedOnly(g0, main) && Linked(g0, g1, r, o, g0.cw) && AllIn(o.fields, Alive(g0))
    ensures Sound(g1) && FixedOnly(g1, main)
    ensures StringsDone(g0, k) ==> StringsDone(g1, k)
    ensures StringsDone(g0, |g0.strt|) ==> StringsDone(g1, |g0.strt|)
    ensures RootsDone(g0, n) && n <= |g0.rootgc| ==> RootsDone(g1, Shifted(n))
    ensures r in Alive(g1) && (Clean(g0) ==> Clean(g1))
  {
    LinkSound(g0, g1, r, o);
    LinkDone(g0, g1, r, o, k, n);
    LinkDone(g0, g1, r, o, |g0.strt|, n);
  }

  lemma SlotsInside(g: G)
    requires Shape(g)
    ensures forall u :: u in g.objs && IsOpen(g.objs[u]) ==> g.objs[u].slot.thread in g.objs
  {
    forall u | u in g.objs && IsOpen(g.objs[u]) ensures g.objs[u].slot.thread in g.objs {
      assert HomeAt(g, u);
    }
  }

  lemma NewMarks(g: G, m0: M, m1: M, r: Ref, o: Obj)
    requires Sound(g) && Marking(m0, g.cw, {}, m0.objs.Keys, m0.objs.Keys) && m0.objs == g.objs && m0.marked == g.marked
    requires r !in m0.objs && !IsOpen(o) && (o.kind == KString ==> o.fields == []) && AllIn(o.fields, Alive(g))
    requires m1 == m0.(objs := m0.objs[r := o], marked := m0.marked[r := Mark(g.cw.w0, g.cw.w1, false, false)])
    ensures Marking(m1, g.cw, {}, m1.objs.Keys, m1.objs.Keys) && Marked(m0) <= Marked(m1)
  {
    MarkingSound(g, m0, {}, g.objs.Keys, g.objs.Keys);
    SlotsInside(g);
    LinkMarking(m0, m1, g.cw, r, o);
  }

  lemma StringKeeps(g0: G, g1: G, r: Ref, h: nat, main: Ref, k: int, n: int)
    requires Sound(g0) && FixedOnly(g0, main) && Interned(g0, g1, r, h)
    ensures Sound(g1) && FixedOnly(g1, main)
    ensures StringsDone(g0, k) ==> StringsDone(g1, k)
    ensures StringsDone(g0, |g0.strt|) ==> StringsDone(g1, |g0.strt|)
    ensures RootsDone(g0, n) ==> RootsDone(g1, n)
    ensures r in Alive(g1) && (Clean(g0) ==> Clean(g1))
  {
    StringSound(g0, g1, r, h);
    StringsGrow(g0, g1, r, k);
    StringsGrow(g0, g1, r, |g0.strt|);
    if RootsDone(g0, n) {
      forall i ensures RootDoneAt(g1, n, i) { assert RootDoneAt(g0, n, i); }
      forall i, j ensures OpenDoneAt(g1, n, i, j) { assert OpenDoneAt(g0, n, i, j); }
    }
  }

  lemma StringsGrow(g0: G, g1: G, r: Ref, k: int)
    requires Fresh(g1, r) && (forall q :: Fresh(g0, q) ==> Fresh(g1, q)) && forall q :: q in g1.objs && q != r ==> q in g0.objs && g1.objs[q] == g0.objs[q]
    ensures StringsDone(g0, k) ==> StringsDone(g1, k)
  {
    if StringsDone(g0, k) {
      forall q ensures StringDoneAt(g1, k, q) { assert StringDoneAt(g0, k, q); }
    }
  }

  lemma ResurrectKeeps(g0: G, g1: G, r: Ref, main: Ref, k: int, n: int)
    requires Sound(g0) && FixedOnly(g0, main) && r in g0.marked && IsDead(g0.cw, g0.marked[r])
    requires g0.objs[r].kind == KString || (IsOpen(g0.objs[r]) && g0.objs[r].slot.thread in Alive(g0))
    requires g1 == g0.(marked := g0.marked[r := ChangeWhite(g0.marked[r])])
    ensures Sound(g1) && FixedOnly(g1, main) && r in Alive(g1)
    ensures StringsDone(g0, k) ==> StringsDone(g1, k)
    ensures StringsDone(g0, |g0.strt|) ==> StringsDone(g1, |g0.strt|)
    ensures RootsDone(g0, n) ==> RootsDone(g1, n)
    ensures Clean(g0) ==> Clean(g1)
  {
    ResurrectSound(g0, g1, r);
    StillDone(g0, g1, k, n);
    StillDone(g0, g1, |g0.strt|, n);
  }

  lemma OnlyUpval(g: G, t: Ref, k: int)
    requires Shape(g) && t in g.openupval && 0 <= k < |g.openupval[t]|
    ensures var u := g.openupval[t][k];
            u in g.objs && forall v :: v in g.objs && g.objs[v].kind == KUpval && g.objs[v].slot == g.objs[u].slot ==> v == u
  {
    var u := g.openupval[t][k];
    assert OpenAt(g, t, k);
    forall v | v in g.objs && g.objs[v].kind == KUpval && g.objs[v].slot == g.objs[u].slot ensures v == u {
      assert HomeAt(g, v);
      var l :| 0 <= l < |g.openupval[t]| && g.openupval[t][l] == v;
      assert OpenAt(g, t, l) && OrderAt(g, t, k, l) && OrderAt(g, t, l, k);
    }
  }

  lemma OpenBelow(g: G, t: Ref, i: nat, pp: nat)
    requires Shape(g) && t in g.openupval && pp <= |g.openupval[t]|
    requires forall k :: 0 <= k < pp ==> g.openupval[t][k] in g.objs && g.objs[g.openupval[t][k]].slot.Slot? && g.objs[g.openupval[t][k]].slot.i > i
    requires pp < |g.openupval[t]| ==>
               var u := g.openupval[t][pp]; u in g.objs && IsOpen(g.objs[u]) ==> g.objs[u].slot.i < i
    ensures forall k :: pp <= k < |g.openupval[t]| && g.openupval[t][k] in g.objs && IsOpen(g.objs[g.openupval[t][k]]) ==>
              g.objs[g.openupval[t][k]].slot.i < i
    ensures forall v :: v in g.objs && g.objs[v].kind == KUpval ==> g.objs[v].slot != Slot(t, i)
  {
    forall k | pp <= k < |g.openupval[t]| && g.openupval[t][k] in g.objs && IsOpen(g.objs[g.openupval[t][k]])
      ensures g.objs[g.openupval[t][k]].slot.i < i
    {
      assert OpenAt(g, t, pp) && OrderAt(g, t, pp, k);
    }
    forall v | v in g.objs && g.objs[v].kind == KUpval ensures g.objs[v].slot != Slot(t, i) {
      assert HomeAt(g, v);
    }
  }

  lemma OpenKeeps(g0: G, g1: G, t: Ref, i: nat, pp: nat, r: Ref, main: Ref, k: int, n: nat)
    requires Sound(g0) && FixedOnly(g0, main) && t in Alive(g0) && Opened(g0, g1, t, i, pp, r)
    ensures Sound(g1) && FixedOnly(g1, main) && r in Alive(g1)
    ensures StringsDone(g0, k) ==> StringsDone(g1, k)
    ensures StringsDone(g0, |g0.strt|) ==> StringsDone(g1, |g0.strt|)
    ensures RootsDone(g0, n) ==> RootsDone(g1, n)
    ensures Clean(g0) ==> Clean(g1)
  {
    OpenSound(g0, g1, t, i, pp, r);
    OpenDone(g0, g1, t, i, pp, r, k, n);
    OpenDone(g0, g1, t, i, pp, r, |g0.strt|, n);
  }

  lemma OpenMarks(g: G, m0: M, m1: M, t: Ref, i: nat, r: Ref)
    requires Sound(g) && Marking(m0, g.cw, {}, m0.objs.Keys, m0.objs.Keys) && m0.objs == g.objs && m0.marked == g.marked
    requires r !in m0.objs && t in m0.objs && m0.objs[t].kind == KThread && i < |m0.objs[t].fields|
    requires m1 == m0.(objs := m0.objs[r := Obj(KUpval, [], Slot(t, i), 0)], marked := m0.marked[r := Mark(g.cw.w0, g.cw.w1, false, false)])
    ensures Marking(m1, g.cw, {}, m1.objs.Keys, m1.objs.Keys) && Marked(m0) <= Marked(m1)
  {
    var cw, E := g.cw, m1.objs.Keys;
    SlotsInside(g);
    forall q ensures ColourAt(m1, cw, q) && GrayAt(m1, {}, q) && KindAt(m1, q) && ListAt(m1, q) && LeafAt(m1.objs, q) {
      assert ColourAt(m0, cw, q) && GrayAt(m0, {}, q) && KindAt(m0, q) && ListAt(m0, q) && LeafAt(m0.objs, q);
    }
    forall q, c ensures BlackAt(m1, {}, q, c) && ClosedAt(m1.objs, E, q, c) && SettledAt(m1, E, {}, q, c) {
      assert BlackAt(m0, {}, q, c) && ClosedAt(m0.objs, m0.objs.Keys, q, c) && ClosedAt(m0.objs, m0.objs.Keys, t, c);
    }
  }

  lemma HeadIn(v: Val, A: set<Ref>)
    requires AllIn([v], A)
    ensures v.Ref? ==> v.r in A
  {
    assert [v][0] == v;
  }

  lemma UpvalShape(g: G, u: Ref)
    requires Sound(g) && u in g.objs && g.objs[u].kind == KUpval
    ensures IsOpen(g.objs[u]) ==>
              var s := g.objs[u].slot;
              s.thread in g.objs && g.objs[s.thread].kind == KThread && s.i < |g.objs[s.thread].fields|
    ensures !IsOpen(g.objs[u]) ==> g.objs[u].slot == Closed && |g.objs[u].fields| == 1
  {
    assert HomeAt(g, u);
  }

  lemma FieldsKept(g: G, t: Ref)
    requires Sound(g) && t in g.objs && g.objs[t].kind == KThread
    ensures forall u :: u in g.objs && IsOpen(g.objs[u]) && g.objs[u].slot.thread == t ==> g.objs[u].slot.i < |g.objs[t].fields|
  {
    forall u | u in g.objs && IsOpen(g.objs[u]) && g.objs[u].slot.thread == t ensures g.objs[u].slot.i < |g.objs[t].fields| {
      assert HomeAt(g, u);
    }
  }

  lemma SlotMarking(g: G, m0: M, m1: M, t: Ref, i: nat, v: Val)
    requires Sound(g) && Marking(m0, g.cw, {}, m0.objs.Keys, m0.objs.Keys) && m0.objs == g.objs && m0.marked == g.marked
    requires t in g.objs && g.objs[t].kind == KThread && i < |g.objs[t].fields| && (v.Ref? ==> v.r in Alive(g))
    requires m1 == m0.(objs := m0.objs[t := m0.objs[t].(fields := m0.objs[t].fields[i := v])])
    ensures Marking(m1, g.cw, {}, m1.objs.Keys, m1.objs.Keys)
  {
    MarkingSound(g, m0, {}, g.objs.Keys, g.objs.Keys);
    FieldsAlive(g, t, i, v);
    ThreadNotBlack(m0, g.cw, t);
    assert m1.objs.Keys == m0.objs.Keys;
    StoreMarking(m0, m1, g.cw, m0.objs.Keys, t, m0.objs[t].fields[i := v]);
  }

  lemma NewState(g: G, main: Ref)
    requires g.objs == map[main := Obj(KThread, [Plain], Closed, 0)] && g.cw == Mark(true, false, false, true) && g.marked == map[main := g.cw]
    requires g.rootgc == [main] && (forall h :: 0 <= h < |g.strt| ==> g.strt[h] == []) && g.openupval == map[main := []] && g.uvhead == {}
    requires g.roots == {main}
    ensures Sound(g) && FixedOnly(g, main) && Clean(g)
  {
    assert forall r :: HomeAt(g, r) by {
      forall r ensures HomeAt(g, r) { assert g.rootgc[0] == main; }
    }
    assert forall i, j :: DistinctAt(g.rootgc, i, j);
    assert Alive(g) == {main};
    forall r, c ensures ClosedAt(g.objs, Alive(g), r, c) {
      if r == main { assert FieldsOf(g.objs, main) == [Plain]; }
    }
  }

  lemma UpvalFields(g: G, o: Ref)
    requires Sound(g) && o in g.objs && !IsOpen(g.objs[o])
    ensures g.objs[o].kind == KUpval ==> |g.objs[o].fields| == 1
  {
    assert HomeAt(g, o);
  }

  lemma GrayNotClean(g: G, u: Ref)
    requires u in g.objs && u in g.marked && IsGray(g.marked[u])
    ensures !Clean(g)
  {
    assert !Fresh(g, u);
  }

  /** The colour a live open upvalue gets when it is closed during a sweep. */
  lemma ClosedColour(g: G, u: Ref)
    requires Sound(g) && u in Alive(g) && IsOpen(g.objs[u])
    ensures var m := if IsGray(g.marked[u]) then MakeWhite(g.cw, g.marked[u]) else g.marked[u];
            && OneColour(m) && !IsDead(g.cw, m) && IsWhite(m) && m.fixed == g.marked[u].fixed
            && (Fresh(g, u) ==> m == g.marked[u])
  {
    assert PaintAt(g, u);
  }

  lemma CursorFront(root: seq<Ref>, n: nat, u: Ref)
    ensures CursorKept(root, n, [u] + root, Shifted(n))
  {
    assert ([u] + root)[1..] == root;
  }

  lemma SameRefl(g: G, root: seq<Ref>, n: nat)
    ensures SameValues(g, g) && CursorKept(root, n, root, n)
  {
    assert root[|root| - |root|..] == root;
  }

  lemma SameValuesTrans(g0: G, g1: G, g2: G)
    requires SameValues(g0, g1) && SameValues(g1, g2)
    ensures SameValues(g0, g2)
  {
  }

  lemma HeadPlace(g: G, u: Ref)
    requires Shape(g) && u in g.uvhead
    ensures u in g.objs && u in g.marked && IsOpen(g.objs[u]) && |FieldsOf(g.objs, u)| == 1
  {
    assert HeadAt(g, u) && HomeAt(g, u);
  }

  lemma GrownMarked(m0: M, m1: M)
    requires Grown(m0, m1)
    ensures Marked(m0) <= Marked(m1)
  {
    forall r | r in Marked(m0) ensures r in Marked(m1) {
      assert NonWhite(m0.marked, r);
    }
  }
}
