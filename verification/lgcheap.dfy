/** Colours, edges and reachability (lgc.h). */
module GcHeap {
  type Ref = nat

  // ---------------------------------------------------------------------------
  // The mark byte
  // ---------------------------------------------------------------------------

  /** The bits of `marked` and of `currentwhite` that the strong collector uses. */
  datatype Mark = Mark(w0: bool, w1: bool, black: bool, fixed: bool)

  predicate IsWhite(m: Mark) { m.w0 || m.w1 }
  predicate IsBlack(m: Mark) { m.black }
  predicate IsGray(m: Mark) { !IsBlack(m) && !IsWhite(m) }

  /** currentwhite ^ WHITEBITS */
  function OtherWhite(cw: Mark): Mark {
    Mark(!cw.w0, !cw.w1, cw.black, cw.fixed)
  }

  /** marked & otherwhite & WHITEBITS */
  predicate IsDead(cw: Mark, m: Mark) {
    var other := OtherWhite(cw);
    (m.w0 && other.w0) || (m.w1 && other.w1)
  }

  function White2Gray(m: Mark): Mark { m.(w0 := false, w1 := false) }
  function Gray2Black(m: Mark): Mark { m.(black := true) }
  function Black2Gray(m: Mark): Mark { m.(black := false) }
  function MakeWhite(cw: Mark, m: Mark): Mark { Mark(cw.w0, cw.w1, false, m.fixed) }
  function ChangeWhite(m: Mark): Mark { m.(w0 := !m.w0, w1 := !m.w1) }

  /** (marked ^ WHITEBITS) & deadmask, where deadmask is otherwhite and so has the FIXEDBIT as well. */
  predicate Survives(cw: Mark, m: Mark) {
    var deadmask := OtherWhite(cw);
    (!m.w0 && deadmask.w0) || (!m.w1 && deadmask.w1) || (m.black && deadmask.black) || (m.fixed && deadmask.fixed)
  }

  /** An object has one colour. */
  predicate OneColour(m: Mark) {
    !(m.w0 && m.w1) && (m.black ==> !IsWhite(m))
  }

  predicate CurrentWhite(cw: Mark) {
    cw.w0 != cw.w1 && !cw.black && cw.fixed
  }

  /** The mask test of sweeplist means: not of the other white, or fixed. */
  lemma SurvivesMeaning(cw: Mark, m: Mark)
    requires CurrentWhite(cw) && OneColour(m)
    ensures Survives(cw, m) <==> !IsDead(cw, m) || m.fixed
  {
  }

  /** Flipping the current white at the end of the mark phase turns exactly the unmarked objects dead. */
  lemma FlipMeaning(cw: Mark, m: Mark)
    requires CurrentWhite(cw) && OneColour(m) && !IsDead(cw, m)
    ensures CurrentWhite(OtherWhite(cw))
    ensures IsDead(OtherWhite(cw), m) <==> IsWhite(m)
  {
  }

  // ---------------------------------------------------------------------------
  // Objects
  // ---------------------------------------------------------------------------

  datatype Val = Plain | Ref(r: Ref)

  datatype Kind = KString | KUserdata | KUpval | KFunction | KTable | KThread | KProto

  /** The slot of a stack an open upvalue points to. */
  datatype Slot = Closed | Slot(thread: Ref, i: nat)

  /** An object and the values in it: metatable and entries of a table, environment, prototype and upvalues
      of a closure, global table and stack of a thread, the value of a closed upvalue.  `bucket` is the
      place of a string in the string table. */
  datatype Obj = Obj(kind: Kind, fields: seq<Val>, slot: Slot, bucket: nat)

  type Objs = map<Ref, Obj>
  type Marks = map<Ref, Mark>

  predicate IsOpen(o: Obj) {
    o.kind == KUpval && o.slot.Slot?
  }

  /** What traversing an object marks; an open upvalue leads to the value of its stack slot. */
  function FieldsOf(objs: Objs, r: Ref): seq<Val>
    requires r in objs
  {
    var o := objs[r];
    if IsOpen(o) then
      if o.slot.thread in objs && o.slot.i < |objs[o.slot.thread].fields| then [objs[o.slot.thread].fields[o.slot.i]] else []
    else o.fields
  }

  predicate Edge(objs: Objs, r: Ref, c: Ref) {
    r in objs && Val.Ref(c) in FieldsOf(objs, r)
  }

  // ---------------------------------------------------------------------------
  // Reachability
  // ---------------------------------------------------------------------------

  ghost predicate StepAt(objs: Objs, p: seq<Ref>, i: int) {
    0 <= i < |p| - 1 ==> Edge(objs, p[i], p[i + 1])
  }

  ghost predicate Path(objs: Objs, roots: set<Ref>, p: seq<Ref>) {
    |p| > 0 && p[0] in roots && forall i :: StepAt(objs, p, i)
  }

  ghost predicate Reachable(objs: Objs, roots: set<Ref>, r: Ref) {
    exists p :: Path(objs, roots, p) && p[|p| - 1] == r
  }

  lemma RootReachable(objs: Objs, roots: set<Ref>, r: Ref)
    requires r in roots
    ensures Reachable(objs, roots, r)
  {
    var p := [r];
    assert forall i :: StepAt(objs, p, i);
    assert Path(objs, roots, p) && p[|p| - 1] == r;
  }

  lemma EdgeReachable(objs: Objs, roots: set<Ref>, r: Ref, c: Ref)
    requires Reachable(objs, roots, r) && Edge(objs, r, c)
    ensures Reachable(objs, roots, c)
  {
    var p :| Path(objs, roots, p) && p[|p| - 1] == r;
    var q := p + [c];
    forall i ensures StepAt(objs, q, i) {
      assert StepAt(objs, p, i);
    }
    assert Path(objs, roots, q) && q[|q| - 1] == c;
  }

  ghost predicate ClosedAt(objs: Objs, A: set<Ref>, r: Ref, c: Ref) {
    r in A && Edge(objs, r, c) ==> c in A
  }

  /** A set of objects no reference leads out of. */
  ghost predicate ClosedSet(objs: Objs, A: set<Ref>) {
    forall r, c :: ClosedAt(objs, A, r, c)
  }

  /** Everything reachable lies in every closed set that has the roots. */
  lemma {:induction false} PathStays(objs: Objs, roots: set<Ref>, A: set<Ref>, p: seq<Ref>)
    requires ClosedSet(objs, A) && roots <= A && Path(objs, roots, p)
    ensures p[|p| - 1] in A
    decreases |p|
  {
    if |p| > 1 {
      var q := p[..|p| - 1];
      forall i ensures StepAt(objs, q, i) {
        assert StepAt(objs, p, i);
      }
      PathStays(objs, roots, A, q);
      assert StepAt(objs, p, |p| - 2) && ClosedAt(objs, A, p[|p| - 2], p[|p| - 1]);
    }
  }

  lemma ReachableStays(objs: Objs, roots: set<Ref>, A: set<Ref>)
    requires ClosedSet(objs, A) && roots <= A
    ensures forall r :: Reachable(objs, roots, r) ==> r in A
  {
    forall r | Reachable(objs, roots, r) ensures r in A {
      var p :| Path(objs, roots, p) && p[|p| - 1] == r;
      PathStays(objs, roots, A, p);
    }
  }

  ghost predicate SameEdgesAt(objs: Objs, objs': Objs, A: set<Ref>, r: Ref) {
    r in A ==> r in objs && r in objs' && FieldsOf(objs', r) == FieldsOf(objs, r)
  }

  /** Objects outside a closed set may change or vanish: nothing reachable notices. */
  lemma SameReachable(objs: Objs, objs': Objs, roots: set<Ref>, A: set<Ref>)
    requires ClosedSet(objs, A) && roots <= A && forall r :: SameEdgesAt(objs, objs', A, r)
    ensures ClosedSet(objs', A) && forall r :: Reachable(objs', roots, r) <==> Reachable(objs, roots, r)
  {
    forall r, c ensures ClosedAt(objs', A, r, c) {
      assert SameEdgesAt(objs, objs', A, r) && ClosedAt(objs, A, r, c);
    }
    forall r ensures Reachable(objs', roots, r) <==> Reachable(objs, roots, r) {
      if Reachable(objs, roots, r) {
        var p :| Path(objs, roots, p) && p[|p| - 1] == r;
        SamePath(objs, objs', roots, A, p);
      }
      if Reachable(objs', roots, r) {
        var p :| Path(objs', roots, p) && p[|p| - 1] == r;
        forall q ensures SameEdgesAt(objs', objs, A, q) {
          assert SameEdgesAt(objs, objs', A, q);
        }
        SamePath(objs', objs, roots, A, p);
      }
    }
  }

  lemma SamePath(objs: Objs, objs': Objs, roots: set<Ref>, A: set<Ref>, p: seq<Ref>)
    requires ClosedSet(objs, A) && roots <= A && (forall r :: SameEdgesAt(objs, objs', A, r)) && Path(objs, roots, p)
    ensures Path(objs', roots, p)
  {
    forall i ensures StepAt(objs', p, i) {
      if 0 <= i < |p| - 1 {
        var q := p[..i + 1];
        forall j ensures StepAt(objs, q, j) {
          assert StepAt(objs, p, j);
        }
        PathStays(objs, roots, A, q);
        assert StepAt(objs, p, i) && SameEdgesAt(objs, objs', A, p[i]);
      }
    }
  }

  /** The set of all reachable objects is closed. */
  ghost function ReachableSet(objs: Objs, roots: set<Ref>): set<Ref> {
    set r | r in objs && Reachable(objs, roots, r)
  }

  lemma ReachableClosed(objs: Objs, roots: set<Ref>)
    requires ClosedSet(objs, objs.Keys)
    ensures ClosedSet(objs, ReachableSet(objs, roots))
  {
    var A := ReachableSet(objs, roots);
    forall r, c ensures ClosedAt(objs, A, r, c) {
      assert ClosedAt(objs, objs.Keys, r, c);
      if r in A && Edge(objs, r, c) {
        EdgeReachable(objs, roots, r, c);
      }
    }
  }

  // ---------------------------------------------------------------------------
  // The marking invariant
  // ---------------------------------------------------------------------------

  predicate NonWhite(marked: Marks, r: Ref) {
    r in marked && !IsWhite(marked[r])
  }

  /** The parts of the state the mark phase works on. */
  datatype M = M(objs: Objs, marked: Marks, gray: seq<Ref>, again: seq<Ref>)

  predicate Traversed(k: Kind) {
    k == KFunction || k == KTable || k == KThread || k == KProto
  }

  /** Black objects do not point to white ones. */
  ghost predicate BlackAt(m: M, X: set<Ref>, r: Ref, c: Ref) {
    r in m.marked && IsBlack(m.marked[r]) && r !in X && Edge(m.objs, r, c) ==> NonWhite(m.marked, c)
  }

  /** Gray objects are in a list; strings and open upvalues just stay gray. */
  ghost predicate GrayAt(m: M, X: set<Ref>, r: Ref) {
    r in m.marked && r in m.objs && IsGray(m.marked[r]) && r !in X ==>
      m.objs[r].kind == KString || IsOpen(m.objs[r]) || r in m.gray || r in m.again
  }

  /** Strings, threads and open upvalues are never black. */
  ghost predicate KindAt(m: M, r: Ref) {
    r in m.marked && r in m.objs && IsBlack(m.marked[r]) ==>
      m.objs[r].kind != KString && m.objs[r].kind != KThread && !IsOpen(m.objs[r])
  }

  ghost predicate ListAt(m: M, r: Ref) {
    (r in m.gray || r in m.again) ==>
      && r in m.objs && r in m.marked && IsGray(m.marked[r]) && Traversed(m.objs[r].kind)
      && (r in m.again ==> m.objs[r].kind == KTable || m.objs[r].kind == KThread)
  }

  ghost predicate DistinctAt(s: seq<Ref>, i: int, j: int) {
    0 <= i < j < |s| ==> s[i] != s[j]
  }

  ghost predicate Distinct(s: seq<Ref>) {
    forall i, j :: DistinctAt(s, i, j)
  }

  /** The tricolour invariant, except for the objects in X that are being traversed. */
  ghost predicate Tricolour(m: M, X: set<Ref>) {
    && (forall r, c :: BlackAt(m, X, r, c)) && (forall r :: GrayAt(m, X, r)) && (forall r :: KindAt(m, r))
    && (forall r :: ListAt(m, r)) && Distinct(m.gray + m.again)
  }

  /** The children of an object are marked. */
  ghost predicate DoneAt(m: M, r: Ref, c: Ref) {
    Edge(m.objs, r, c) ==> NonWhite(m.marked, c)
  }

  /** Marked open upvalues and the objects that wait for the atomic phase, other than those in E and X,
      have their children marked already. */
  ghost predicate SettledAt(m: M, E: set<Ref>, X: set<Ref>, r: Ref, c: Ref) {
    r in m.objs && r !in E && r !in X && ((IsOpen(m.objs[r]) && NonWhite(m.marked, r)) || r in m.again) ==> DoneAt(m, r, c)
  }

  ghost predicate Settled(m: M, E: set<Ref>, X: set<Ref>) {
    forall r, c :: SettledAt(m, E, X, r, c)
  }

  ghost predicate MarkedIn(m: M, P: set<Ref>) {
    forall r :: r in m.marked && NonWhite(m.marked, r) ==> r in P
  }

  ghost predicate ColourAt(m: M, cw: Mark, r: Ref) {
    r in m.marked ==> OneColour(m.marked[r]) && !IsDead(cw, m.marked[r])
  }

  /** Strings hold no references. */
  ghost predicate LeafAt(objs: Objs, r: Ref) {
    r in objs && objs[r].kind == KString ==> objs[r].fields == []
  }

  /** What every operation of the mark phase keeps: P is a closed set that bounds what gets marked. */
  ghost predicate Marking(m: M, cw: Mark, X: set<Ref>, E: set<Ref>, P: set<Ref>) {
    && m.marked.Keys == m.objs.Keys && CurrentWhite(cw) && (forall r :: ColourAt(m, cw, r))
    && ClosedSet(m.objs, m.objs.Keys) && ClosedSet(m.objs, P) && (forall r :: LeafAt(m.objs, r))
    && Tricolour(m, X) && Settled(m, E, X) && MarkedIn(m, P)
  }

  /** Marking only ever marks. */
  ghost predicate Grown(m0: M, m1: M) {
    && m1.objs == m0.objs && m1.marked.Keys == m0.marked.Keys
    && (forall r :: NonWhite(m0.marked, r) ==> NonWhite(m1.marked, r) && m1.marked[r] == m0.marked[r])
    && (forall r :: r in m0.marked ==> m1.marked[r].fixed == m0.marked[r].fixed)
    && (forall r :: r in m1.gray ==> r in m0.gray || (r in m0.marked && IsWhite(m0.marked[r])))
  }

  lemma GrownTrans(m0: M, m1: M, m2: M)
    requires Grown(m0, m1) && Grown(m1, m2)
    ensures Grown(m0, m2)
  {
  }

  ghost function Whites(marked: Marks): set<Ref> {
    set r | r in marked && IsWhite(marked[r])
  }

  lemma GrownWhites(m0: M, m1: M)
    requires Grown(m0, m1)
    ensures Whites(m1.marked) <= Whites(m0.marked)
  {
    forall r | r in Whites(m1.marked) ensures r in Whites(m0.marked) {
      assert !NonWhite(m1.marked, r);
    }
  }

  lemma PushDistinct(o: Ref, s: seq<Ref>, t: seq<Ref>)
    requires Distinct(s + t) && o !in s && o !in t
    ensures Distinct([o] + s + t) && Distinct(s + ([o] + t))
  {
    var u := s + t;
    forall i, j ensures DistinctAt([o] + s + t, i, j) {
      assert DistinctAt(u, i - 1, j - 1);
      assert [o] + s + t == [o] + u;
    }
    var w, n := s + ([o] + t), |s|;
    forall i, j ensures DistinctAt(w, i, j) {
      var i', j' := if i < n then i else i - 1, if j < n then j else j - 1;
      assert DistinctAt(u, i', j');
      if 0 <= i < j < |w| {
        assert i != n ==> w[i] == u[i'] && w[i] in u;
        assert j != n ==> w[j] == u[j'] && w[j] in u;
      }
    }
  }

  lemma PopDistinct(s: seq<Ref>, t: seq<Ref>)
    requires Distinct(s + t) && s != []
    ensures Distinct(s[1..] + t) && s[0] !in s[1..] && s[0] !in t
  {
    var u := s + t;
    assert u[1..] == s[1..] + t && u[0] == s[0];
    forall i, j ensures DistinctAt(u[1..], i, j) {
      assert DistinctAt(u, i + 1, j + 1);
    }
    forall k | 0 <= k < |u[1..]| ensures u[1..][k] != u[0] {
      assert DistinctAt(u, 0, k + 1);
    }
    assert s[0] !in u[1..];
  }

  // ---------------------------------------------------------------------------
  // Single marking steps
  // ---------------------------------------------------------------------------

  /** white2gray on an object that then counts as being traversed. */
  lemma BeginMark(m0: M, m1: M, cw: Mark, X: set<Ref>, E: set<Ref>, P: set<Ref>, o: Ref, black: bool)
    requires Marking(m0, cw, X, E, P) && o in m0.marked && IsWhite(m0.marked[o]) && o in P
    requires m1 == m0.(marked := m0.marked[o := if black then Gray2Black(White2Gray(m0.marked[o])) else White2Gray(m0.marked[o])])
    requires black ==> m0.objs[o].kind == KUserdata
    ensures Marking(m1, cw, X + {o}, E, P) && Grown(m0, m1) && Whites(m1.marked) == Whites(m0.marked) - {o}
  {
    var X' := X + {o};
    assert ColourAt(m0, cw, o);
    forall r ensures ColourAt(m1, cw, r) && GrayAt(m1, X', r) && KindAt(m1, r) && ListAt(m1, r) {
      assert ColourAt(m0, cw, r) && GrayAt(m0, X, r) && KindAt(m0, r) && ListAt(m0, r);
    }
    forall r, c ensures BlackAt(m1, X', r, c) && SettledAt(m1, E, X', r, c) {
      assert BlackAt(m0, X, r, c) && SettledAt(m0, E, X, r, c);
    }
  }

  /** An object whose children have been marked is finished. */
  lemma EndMark(m0: M, m1: M, cw: Mark, X: set<Ref>, E: set<Ref>, P: set<Ref>, o: Ref)
    requires Marking(m0, cw, X + {o}, E, P) && o !in X && NonWhite(m0.marked, o) && o in P
    requires forall v :: v in FieldsOf(m0.objs, o) ==> v.Ref? ==> NonWhite(m0.marked, v.r)
    requires m1 == m0 || (m1 == m0.(marked := m0.marked[o := Gray2Black(m0.marked[o])]) && IsGray(m0.marked[o])
                          && m0.objs[o].kind == KUpval && !IsOpen(m0.objs[o]))
    requires IsGray(m1.marked[o]) ==> m1.objs[o].kind == KString || IsOpen(m1.objs[o]) || o in m1.gray || o in m1.again
    ensures Marking(m1, cw, X, E, P)
    ensures forall r :: NonWhite(m0.marked, r) <==> NonWhite(m1.marked, r)
  {
    var X' := X + {o};
    forall r ensures ColourAt(m1, cw, r) && GrayAt(m1, X, r) && KindAt(m1, r) && ListAt(m1, r) {
      assert ColourAt(m0, cw, r) && GrayAt(m0, X', r) && KindAt(m0, r) && ListAt(m0, r);
    }
    forall r, c ensures BlackAt(m1, X, r, c) && SettledAt(m1, E, X, r, c) {
      assert BlackAt(m0, X', r, c) && SettledAt(m0, E, X', r, c);
      assert r == o && Edge(m0.objs, o, c) ==> Val.Ref(c) in FieldsOf(m0.objs, o);
    }
  }

  /** An object put on the gray list needs nothing else. */
  lemma PushMark(m0: M, m1: M, cw: Mark, X: set<Ref>, E: set<Ref>, P: set<Ref>, o: Ref)
    requires Marking(m0, cw, X, E, P) && o in m0.marked && IsWhite(m0.marked[o]) && o in P && Traversed(m0.objs[o].kind)
    requires m1 == m0.(marked := m0.marked[o := White2Gray(m0.marked[o])], gray := [o] + m0.gray)
    ensures Marking(m1, cw, X, E, P) && Grown(m0, m1)
  {
    assert ListAt(m0, o) && ColourAt(m0, cw, o);
    PushDistinct(o, m0.gray, m0.again);
    forall r ensures ColourAt(m1, cw, r) && GrayAt(m1, X, r) && KindAt(m1, r) && ListAt(m1, r) {
      assert ColourAt(m0, cw, r) && GrayAt(m0, X, r) && KindAt(m0, r) && ListAt(m0, r);
    }
    forall r, c ensures BlackAt(m1, X, r, c) && SettledAt(m1, E, X, r, c) {
      assert BlackAt(m0, X, r, c) && SettledAt(m0, E, X, r, c);
    }
  }

  /** Taking an object off the gray list to traverse it: black, or for a thread gray and in the other list. */
  lemma PopMark(m0: M, m1: M, cw: Mark, E: set<Ref>, P: set<Ref>, o: Ref)
    requires Marking(m0, cw, {}, E, P) && m0.gray != [] && o == m0.gray[0] && o in m0.objs && o in m0.marked
    requires if m0.objs[o].kind == KThread
             then m1 == m0.(gray := m0.gray[1..], again := [o] + m0.again)
             else m1 == m0.(gray := m0.gray[1..], marked := m0.marked[o := Gray2Black(m0.marked[o])])
    ensures Marking(m1, cw, {o}, E, P) && NonWhite(m0.marked, o)
    ensures forall r :: NonWhite(m0.marked, r) <==> NonWhite(m1.marked, r)
    ensures Whites(m1.marked) == Whites(m0.marked)
  {
    assert ListAt(m0, o) && ColourAt(m0, cw, o);
    PopDistinct(m0.gray, m0.again);
    PushDistinct(o, m0.gray[1..], m0.again);
    assert m0.gray == [o] + m0.gray[1..];
    forall r ensures ColourAt(m1, cw, r) && GrayAt(m1, {o}, r) && KindAt(m1, r) && ListAt(m1, r) {
      assert ColourAt(m0, cw, r) && GrayAt(m0, {}, r) && KindAt(m0, r) && ListAt(m0, r);
    }
    forall r, c ensures BlackAt(m1, {o}, r, c) && SettledAt(m1, E, {o}, r, c) {
      assert BlackAt(m0, {}, r, c) && SettledAt(m0, E, {}, r, c);
    }
  }

  // ---------------------------------------------------------------------------
  // The shape of the heap
  // ---------------------------------------------------------------------------

  /** The state without the lists of the mark phase. */
  datatype G = G(objs: Objs, marked: Marks, cw: Mark, rootgc: seq<Ref>, strt: seq<seq<Ref>>,
                 openupval: map<Ref, seq<Ref>>, uvhead: set<Ref>, roots: set<Ref>)

  /** An object is in the list the collector sweeps it from. */
  ghost predicate HomeAt(g: G, r: Ref) {
    r in g.objs ==>
      var o := g.objs[r];
      if o.kind == KString then o.bucket < |g.strt| && r in g.strt[o.bucket]
      else if IsOpen(o) then
        && r in g.uvhead && o.slot.thread in g.objs && g.objs[o.slot.thread].kind == KThread
        && o.slot.i < |g.objs[o.slot.thread].fields| && o.slot.thread in g.openupval && r in g.openupval[o.slot.thread]
      else
        r in g.rootgc && (o.kind == KThread ==> r in g.openupval && |o.fields| > 0) && (o.kind == KUpval ==> |o.fields| == 1)
  }

  ghost predicate RootAt(g: G, i: int) {
    0 <= i < |g.rootgc| ==>
      g.rootgc[i] in g.objs && g.objs[g.rootgc[i]].kind != KString && !IsOpen(g.objs[g.rootgc[i]])
  }

  ghost predicate BucketAt(g: G, h: int, i: int) {
    0 <= h < |g.strt| && 0 <= i < |g.strt[h]| ==>
      g.strt[h][i] in g.objs && g.objs[g.strt[h][i]].kind == KString && g.objs[g.strt[h][i]].bucket == h
  }

  /** The open upvalues of a thread, from the top of the stack downwards. */
  ghost predicate OpenAt(g: G, t: Ref, i: int) {
    t in g.openupval ==>
      && t in g.objs && g.objs[t].kind == KThread
      && (0 <= i < |g.openupval[t]| ==>
            g.openupval[t][i] in g.objs && IsOpen(g.objs[g.openupval[t][i]]) && g.objs[g.openupval[t][i]].slot.thread == t)
  }

  ghost predicate OrderAt(g: G, t: Ref, i: int, j: int) {
    t in g.openupval && 0 <= i < j < |g.openupval[t]| && g.openupval[t][i] in g.objs && g.openupval[t][j] in g.objs
    && IsOpen(g.objs[g.openupval[t][i]]) && IsOpen(g.objs[g.openupval[t][j]]) ==>
      g.objs[g.openupval[t][i]].slot.i > g.objs[g.openupval[t][j]].slot.i
  }

  ghost predicate HeadAt(g: G, u: Ref) {
    u in g.uvhead ==> u in g.objs && IsOpen(g.objs[u])
  }

  ghost predicate StringAt(g: G, h: int) {
    0 <= h < |g.strt| ==> Distinct(g.strt[h])
  }

  ghost predicate Shape(g: G) {
    && g.marked.Keys == g.objs.Keys
    && (forall r :: HomeAt(g, r)) && (forall r :: LeafAt(g.objs, r)) && (forall i :: RootAt(g, i)) && Distinct(g.rootgc)
    && (forall h, i :: BucketAt(g, h, i)) && (forall h :: StringAt(g, h))
    && (forall t, i :: OpenAt(g, t, i)) && (forall t, i, j :: OrderAt(g, t, i, j)) && (forall u :: HeadAt(g, u))
  }

  /** The objects that are not of the other white. */
  ghost function Alive(g: G): set<Ref> {
    set r | r in g.objs && r in g.marked && !IsDead(g.cw, g.marked[r])
  }

  ghost predicate PaintAt(g: G, r: Ref) {
    r in g.marked && r in g.objs ==>
      && OneColour(g.marked[r])
      && (IsBlack(g.marked[r]) ==> g.objs[r].kind != KString && g.objs[r].kind != KThread && !IsOpen(g.objs[r]))
  }

  /** What holds between any two steps: no reference leads from a live object to a dead or freed one. */
  ghost predicate Sound(g: G) {
    && Shape(g) && CurrentWhite(g.cw) && (forall r :: PaintAt(g, r))
    && g.roots <= Alive(g) && ClosedSet(g.objs, Alive(g))
  }

  /** An object that already has the colour of the next cycle. */
  predicate Fresh(g: G, r: Ref) {
    r in g.marked && r in g.objs && IsWhite(g.marked[r]) && !IsDead(g.cw, g.marked[r]) && !IsBlack(g.marked[r])
  }

  /** Every object has the colour of the next cycle. */
  ghost predicate Clean(g: G) {
    forall r :: r in g.objs ==> Fresh(g, r)
  }

  /** Reachable objects are alive, and in particular allocated. */
  lemma SoundReachable(g: G)
    requires Sound(g)
    ensures forall r :: Reachable(g.objs, g.roots, r) ==> r in Alive(g) && r in g.objs
  {
    ReachableStays(g.objs, g.roots, Alive(g));
  }

  // ---------------------------------------------------------------------------
  // Sweeping
  // ---------------------------------------------------------------------------

  /** An object stays as it is, or is an open upvalue that was closed. */
  predicate SameOrClosed(o0: Obj, o1: Obj) {
    o1 == o0 || (IsOpen(o0) && o1.kind == KUpval && o1.slot == Closed)
  }

  ghost predicate SweptAt(g0: G, g1: G, r: Ref) {
    && (r in g0.objs && r in g1.objs ==> SameOrClosed(g0.objs[r], g1.objs[r]))
    && (r in Alive(g0) ==> r in Alive(g1) && FieldsOf(g1.objs, r) == FieldsOf(g0.objs, r))
    && (Fresh(g0, r) ==> Fresh(g1, r))
    && (r in g1.objs ==> r in g0.objs && g1.objs[r].kind == g0.objs[r].kind && g1.objs[r].bucket == g0.objs[r].bucket)
    && (r in g1.objs ==> r in g0.marked && r in g1.marked && g1.marked[r].fixed == g0.marked[r].fixed)
    && (r in Alive(g1) && r !in Alive(g0) ==> r in g0.marked && g0.marked[r].fixed)
    && (r in g0.objs && r in g0.marked && g0.marked[r].fixed ==> r in g1.objs)
  }

  /** Sweeping frees dead objects only, and all that survive keep their references. */
  ghost predicate Swept(g0: G, g1: G) {
    g1.cw == g0.cw && g1.roots == g0.roots && forall r :: SweptAt(g0, g1, r)
  }

  lemma SweptTrans(g0: G, g1: G, g2: G)
    requires Swept(g0, g1) && Swept(g1, g2)
    ensures Swept(g0, g2)
  {
    forall r ensures SweptAt(g0, g2, r) {
      assert SweptAt(g0, g1, r) && SweptAt(g1, g2, r);
    }
  }

  /** Only strings and the main thread are fixed; a dead fixed object can only be a string. */
  ghost predicate FixedAt(g: G, r: Ref) {
    r in g.objs && r in g.marked && g.marked[r].fixed ==> g.objs[r].kind == KString || r in g.roots
  }

  /** An object that survives is made white for the next cycle. */
  lemma Whiten(g0: G, g1: G, r: Ref)
    requires Sound(g0) && r in g0.marked && FixedAt(g0, r) && Survives(g0.cw, g0.marked[r])
    requires g1 == g0.(marked := g0.marked[r := MakeWhite(g0.cw, g0.marked[r])])
    ensures Sound(g1) && Swept(g0, g1) && Fresh(g1, r)
  {
    assert PaintAt(g0, r);
    SurvivesMeaning(g0.cw, g0.marked[r]);
    ShapeMarks(g0, g1);
    forall q ensures PaintAt(g1, q) && SweptAt(g0, g1, q) {
      assert PaintAt(g0, q);
    }
    forall q, c ensures ClosedAt(g1.objs, Alive(g1), q, c) {
      assert ClosedAt(g0.objs, Alive(g0), q, c) && LeafAt(g0.objs, q) && SweptAt(g0, g1, c);
    }
  }

  /** Colours do not matter for the shape. */
  lemma ShapeMarks(g0: G, g1: G)
    requires Shape(g0) && g1 == g0.(marked := g1.marked, cw := g1.cw) && g1.marked.Keys == g0.marked.Keys
    ensures Shape(g1)
  {
    forall r ensures HomeAt(g1, r) && LeafAt(g1.objs, r) && HeadAt(g1, r) {
      assert HomeAt(g0, r) && LeafAt(g0.objs, r) && HeadAt(g0, r);
    }
    forall i: int ensures RootAt(g1, i) && StringAt(g1, i) { assert RootAt(g0, i) && StringAt(g0, i); }
    forall h: int, i: int ensures BucketAt(g1, h, i) { assert BucketAt(g0, h, i); }
    forall t, i ensures OpenAt(g1, t, i) { assert OpenAt(g0, t, i); }
    forall t, i, j ensures OrderAt(g1, t, i, j) { assert OrderAt(g0, t, i, j); }
  }

  lemma DropDistinct(s: seq<Ref>, k: int)
    requires Distinct(s) && 0 <= k < |s|
    ensures Distinct(s[..k] + s[k + 1..]) && s[k] !in s[..k] + s[k + 1..]
    ensures forall x :: x in s && x != s[k] ==> x in s[..k] + s[k + 1..]
    ensures forall x :: x in s[..k] + s[k + 1..] ==> x in s
  {
    var t := s[..k] + s[k + 1..];
    forall i, j ensures DistinctAt(t, i, j) {
      var i', j' := if i < k then i else i + 1, if j < k then j else j + 1;
      assert DistinctAt(s, i', j');
    }
    forall i | 0 <= i < |t| ensures t[i] != s[k] && t[i] in s {
      assert DistinctAt(s, i, k) && DistinctAt(s, k, i + 1);
    }
    forall x | x in s && x != s[k] ensures x in t {
      var i :| 0 <= i < |s| && s[i] == x;
      assert t[if i < k then i else i - 1] == x;
    }
  }

  function Without<T>(m: map<Ref, T>, r: Ref): map<Ref, T> {
    map x | x in m && x != r :: m[x]
  }

  /** freeobj on a string of bucket h. */
  lemma FreeString(g0: G, g1: G, h: int, k: int)
    requires Sound(g0) && 0 <= h < |g0.strt| && 0 <= k < |g0.strt[h]| && g0.strt[h][k] !in Alive(g0)
    requires g0.strt[h][k] in g0.marked && !g0.marked[g0.strt[h][k]].fixed
    requires var r := g0.strt[h][k];
             g1 == g0.(objs := Without(g0.objs, r), marked := Without(g0.marked, r),
                       strt := g0.strt[h := g0.strt[h][..k] + g0.strt[h][k + 1..]])
    ensures Sound(g1) && Swept(g0, g1)
  {
    var r := g0.strt[h][k];
    assert StringAt(g0, h) && BucketAt(g0, h, k);
    DropDistinct(g0.strt[h], k);
    forall q ensures HomeAt(g1, q) && LeafAt(g1.objs, q) && HeadAt(g1, q) && PaintAt(g1, q) {
      assert HomeAt(g0, q) && LeafAt(g0.objs, q) && HeadAt(g0, q) && PaintAt(g0, q);
      if q in g0.objs && IsOpen(g0.objs[q]) { assert HomeAt(g0, g0.objs[q].slot.thread); }
    }
    forall i: int ensures RootAt(g1, i) && StringAt(g1, i) { assert RootAt(g0, i) && StringAt(g0, i); }
    forall h': int, i: int ensures BucketAt(g1, h', i) {
      assert BucketAt(g0, h', i) && BucketAt(g0, h', i + 1);
    }
    forall t, i ensures OpenAt(g1, t, i) { assert OpenAt(g0, t, i); }
    forall t, i, j ensures OrderAt(g1, t, i, j) { assert OrderAt(g0, t, i, j); }
    Freed(g0, g1, r);
  }

  /** Taking a dead object away leaves the live ones closed. */
  lemma Freed(g0: G, g1: G, r: Ref)
    requires Sound(g0) && r !in Alive(g0) && r in g0.marked && !g0.marked[r].fixed
    requires g1.objs == Without(g0.objs, r) && g1.marked == Without(g0.marked, r) && g1.cw == g0.cw && g1.roots == g0.roots
    requires r in g0.objs && g0.objs[r].kind == KThread ==> forall u :: u in g0.objs && IsOpen(g0.objs[u]) ==> g0.objs[u].slot.thread != r
    ensures Swept(g0, g1) && Alive(g1) == Alive(g0) && ClosedSet(g1.objs, Alive(g1))
  {
    forall q ensures SweptAt(g0, g1, q) {
      assert HomeAt(g0, q);
    }
    forall q, c ensures ClosedAt(g1.objs, Alive(g1), q, c) {
      assert SweptAt(g0, g1, q) && ClosedAt(g0.objs, Alive(g0), q, c);
    }
  }

  /** freeobj on a dead open upvalue (luaF_freeupval). */
  lemma FreeOpen(g0: G, g1: G, t: Ref, k: int)
    requires Sound(g0) && t in g0.openupval && 0 <= k < |g0.openupval[t]| && g0.openupval[t][k] !in Alive(g0)
    requires g0.openupval[t][k] in g0.marked && !g0.marked[g0.openupval[t][k]].fixed
    requires var r := g0.openupval[t][k];
             g1 == g0.(objs := Without(g0.objs, r), marked := Without(g0.marked, r), uvhead := g0.uvhead - {r},
                       openupval := g0.openupval[t := g0.openupval[t][..k] + g0.openupval[t][k + 1..]])
    ensures Sound(g1) && Swept(g0, g1)
  {
    var r := g0.openupval[t][k];
    assert OpenAt(g0, t, k);
    OpenDistinct(g0, t);
    DropDistinct(g0.openupval[t], k);
    forall q ensures HomeAt(g1, q) && LeafAt(g1.objs, q) && HeadAt(g1, q) && PaintAt(g1, q) {
      assert HomeAt(g0, q) && LeafAt(g0.objs, q) && HeadAt(g0, q) && PaintAt(g0, q);
      if q in g0.objs && IsOpen(g0.objs[q]) { assert HomeAt(g0, g0.objs[q].slot.thread); }
    }
    forall i: int ensures RootAt(g1, i) && StringAt(g1, i) { assert RootAt(g0, i) && StringAt(g0, i); }
    forall h: int, i: int ensures BucketAt(g1, h, i) { assert BucketAt(g0, h, i); }
    forall s, i ensures OpenAt(g1, s, i) {
      assert OpenAt(g0, s, i) && OpenAt(g0, s, i + 1);
      if s in g1.openupval && 0 <= i < |g1.openupval[s]| { OpenApart(g0, t, k, s, if s == t && i >= k then i + 1 else i); }
    }
    forall s, i, j ensures OrderAt(g1, s, i, j) {
      var i', j' := if s == t && i >= k then i + 1 else i, if s == t && j >= k then j + 1 else j;
      assert OrderAt(g0, s, i', j');
    }
    Freed(g0, g1, r);
  }

  lemma OpenDistinct(g: G, t: Ref)
    requires Shape(g) && t in g.openupval
    ensures Distinct(g.openupval[t])
  {
    forall i, j ensures DistinctAt(g.openupval[t], i, j) {
      assert OrderAt(g, t, i, j) && OpenAt(g, t, i) && OpenAt(g, t, j);
    }
  }

  lemma OpenApart(g: G, t: Ref, k: int, s: Ref, i: int)
    requires Shape(g) && t in g.openupval && 0 <= k < |g.openupval[t]| && s in g.openupval && 0 <= i < |g.openupval[s]|
    requires s != t || i != k
    ensures g.openupval[s][i] != g.openupval[t][k]
  {
    assert OpenAt(g, t, k) && OpenAt(g, s, i);
    if s == t {
      OpenDistinct(g, t);
      assert DistinctAt(g.openupval[t], i, k) && DistinctAt(g.openupval[t], k, i);
    }
  }

  /** freeobj on an object of the root list; a thread has no open upvalues left. */
  lemma FreeRoot(g0: G, g1: G, k: int)
    requires Sound(g0) && 0 <= k < |g0.rootgc| && g0.rootgc[k] !in Alive(g0)
    requires g0.rootgc[k] in g0.marked && !g0.marked[g0.rootgc[k]].fixed
    requires g0.rootgc[k] in g0.openupval ==> g0.openupval[g0.rootgc[k]] == []
    requires var r := g0.rootgc[k];
             g1 == g0.(objs := Without(g0.objs, r), marked := Without(g0.marked, r), rootgc := g0.rootgc[..k] + g0.rootgc[k + 1..],
                       openupval := Without(g0.openupval, r))
    ensures Sound(g1) && Swept(g0, g1)
  {
    var r := g0.rootgc[k];
    assert RootAt(g0, k) && HomeAt(g0, r);
    DropDistinct(g0.rootgc, k);
    forall q ensures HomeAt(g1, q) && LeafAt(g1.objs, q) && HeadAt(g1, q) && PaintAt(g1, q) {
      assert HomeAt(g0, q) && LeafAt(g0.objs, q) && HeadAt(g0, q) && PaintAt(g0, q);
      if q in g0.objs && IsOpen(g0.objs[q]) { assert HomeAt(g0, g0.objs[q].slot.thread); }
    }
    forall i: int ensures RootAt(g1, i) && StringAt(g1, i) {
      assert RootAt(g0, i) && RootAt(g0, i + 1) && StringAt(g0, i);
      if 0 <= i < |g1.rootgc| { assert g1.rootgc[i] in g1.rootgc; }
    }
    forall h: int, i: int ensures BucketAt(g1, h, i) { assert BucketAt(g0, h, i); }
    forall t, i ensures OpenAt(g1, t, i) { assert OpenAt(g0, t, i); }
    forall t, i, j ensures OrderAt(g1, t, i, j) { assert OrderAt(g0, t, i, j); }
    forall u | u in g0.objs && IsOpen(g0.objs[u]) ensures g0.objs[u].slot.thread != r {
      assert HomeAt(g0, u);
    }
    Freed(g0, g1, r);
  }

  /** The value of the topmost open upvalue moves into it, and it joins the root list. */
  ghost predicate ClosedTop(g0: G, g1: G, t: Ref, m: Mark) {
    t in g0.openupval && g0.openupval[t] != [] && g0.openupval[t][0] in g0.objs &&
    var u := g0.openupval[t][0];
    g1 == g0.(objs := g0.objs[u := g0.objs[u].(fields := FieldsOf(g0.objs, u), slot := Closed)], marked := g0.marked[u := m],
              uvhead := g0.uvhead - {u}, openupval := g0.openupval[t := g0.openupval[t][1..]], rootgc := [u] + g0.rootgc)
  }

  lemma UpvalPlace(g: G, t: Ref, i: int)
    requires Shape(g) && t in g.openupval && 0 <= i < |g.openupval[t]|
    ensures var u := g.openupval[t][i];
            u in g.objs && u in g.marked && IsOpen(g.objs[u]) && g.objs[u].slot.thread == t && |FieldsOf(g.objs, u)| == 1
    ensures forall r :: r in g.objs && IsOpen(g.objs[r]) ==> r in g.uvhead && g.objs[r].slot.thread != g.openupval[t][i]
  {
    assert OpenAt(g, t, i) && HomeAt(g, g.openupval[t][i]);
    forall r | r in g.objs && IsOpen(g.objs[r]) ensures r in g.uvhead && g.objs[r].slot.thread != g.openupval[t][i] {
      assert HomeAt(g, r);
    }
  }

  lemma CloseRoots(g: G, t: Ref)
    requires Shape(g) && t in g.openupval && g.openupval[t] != []
    ensures var u := g.openupval[t][0]; u !in g.rootgc && Distinct([u] + g.rootgc)
  {
    var u := g.openupval[t][0];
    assert OpenAt(g, t, 0);
    assert u !in g.rootgc by {
      forall i | 0 <= i < |g.rootgc| ensures g.rootgc[i] != u { assert RootAt(g, i); }
    }
    assert g.rootgc + [] == g.rootgc;
    PushDistinct(u, g.rootgc, []);
    assert [u] + g.rootgc + [] == [u] + g.rootgc;
  }

  lemma CloseLists(g0: G, g1: G, t: Ref, m: Mark, s: Ref, i: int, j: int)
    requires Shape(g0) && t in g0.openupval && g0.openupval[t] != [] && g0.openupval[t][0] in g0.objs && ClosedTop(g0, g1, t, m)
    ensures OpenAt(g1, s, i) && OrderAt(g1, s, i, j)
  {
    var i', j' := if s == t then i + 1 else i, if s == t then j + 1 else j;
    assert OpenAt(g0, s, i) && OpenAt(g0, s, i') && OrderAt(g0, s, i', j');
    if s in g1.openupval && 0 <= i < |g1.openupval[s]| { OpenApart(g0, t, 0, s, i'); }
    if s in g1.openupval && 0 <= j < |g1.openupval[s]| { OpenApart(g0, t, 0, s, j'); }
  }

  lemma CloseShape(g0: G, g1: G, t: Ref, m: Mark)
    requires Shape(g0) && ClosedTop(g0, g1, t, m) && |FieldsOf(g0.objs, g0.openupval[t][0])| == 1
    ensures Shape(g1)
  {
    var u := g0.openupval[t][0];
    assert OpenAt(g0, t, 0) && HomeAt(g0, u);
    OpenDistinct(g0, t);
    DropDistinct(g0.openupval[t], 0);
    assert g0.openupval[t][..0] + g0.openupval[t][0 + 1..] == g0.openupval[t][1..];
    CloseRoots(g0, t);
    forall q ensures HomeAt(g1, q) && LeafAt(g1.objs, q) && HeadAt(g1, q) {
      assert HomeAt(g0, q) && LeafAt(g0.objs, q) && HeadAt(g0, q);
      if q in g0.objs && IsOpen(g0.objs[q]) { assert HomeAt(g0, g0.objs[q].slot.thread); }
    }
    forall i: int ensures RootAt(g1, i) && StringAt(g1, i) {
      assert RootAt(g0, i - 1) && StringAt(g0, i);
    }
    forall h: int, i: int ensures BucketAt(g1, h, i) { assert BucketAt(g0, h, i); }
    forall s, i ensures OpenAt(g1, s, i) { CloseLists(g0, g1, t, m, s, i, i); }
    forall s, i, j ensures OrderAt(g1, s, i, j) { CloseLists(g0, g1, t, m, s, i, j); }
  }

  /** luaF_close on the topmost open upvalue: the value moves into the upvalue, which joins the root list. */
  lemma CloseOpen(g0: G, g1: G, t: Ref, m: Mark)
    requires Sound(g0) && t in g0.openupval && g0.openupval[t] != []
    requires g0.openupval[t][0] in Alive(g0) && |FieldsOf(g0.objs, g0.openupval[t][0])| == 1
    requires var u := g0.openupval[t][0];
             OneColour(m) && !IsDead(g0.cw, m) && m.fixed == g0.marked[u].fixed && (Fresh(g0, u) ==> m == g0.marked[u])
    requires ClosedTop(g0, g1, t, m)
    ensures Sound(g1) && Swept(g0, g1) && Alive(g1) == Alive(g0)
  {
    hide Shape;
    CloseShape(g0, g1, t, m);
    UpvalPlace(g0, t, 0);
    forall q ensures PaintAt(g1, q) && SweptAt(g0, g1, q) {
      assert PaintAt(g0, q);
      PlaceOf(g0, q);
    }
    forall q, c ensures ClosedAt(g1.objs, Alive(g1), q, c) {
      assert SweptAt(g0, g1, q) && ClosedAt(g0.objs, Alive(g0), q, c);
    }
  }

  lemma PlaceOf(g: G, q: Ref)
    requires Shape(g)
    ensures q in g.objs && IsOpen(g.objs[q]) ==>
              var s := g.objs[q].slot; s.thread in g.objs && g.objs[s.thread].kind == KThread && s.i < |g.objs[s.thread].fields|
    ensures q in g.objs <==> q in g.marked
  {
    assert HomeAt(g, q);
  }

  // ---------------------------------------------------------------------------
  // How far a sweep has come
  // ---------------------------------------------------------------------------

  ghost predicate StringDoneAt(g: G, n: int, r: Ref) {
    r in g.objs && g.objs[r].kind == KString && g.objs[r].bucket < n ==> Fresh(g, r)
  }

  ghost predicate RootDoneAt(g: G, n: int, i: int) {
    0 <= i < n && i < |g.rootgc| ==> Fresh(g, g.rootgc[i])
  }

  ghost predicate OpenDoneAt(g: G, n: int, i: int, j: int) {
    0 <= i < n && i < |g.rootgc| && g.rootgc[i] in g.openupval && 0 <= j < |g.openupval[g.rootgc[i]]| ==>
      Fresh(g, g.openupval[g.rootgc[i]][j])
  }

  ghost predicate StringsDone(g: G, n: int) {
    forall r :: StringDoneAt(g, n, r)
  }

  ghost predicate RootsDone(g: G, n: int) {
    (forall i :: RootDoneAt(g, n, i)) && forall i, j :: OpenDoneAt(g, n, i, j)
  }

  /** After a complete sweep every object is white for the next cycle. */
  lemma AllFresh(g: G)
    requires Shape(g) && StringsDone(g, |g.strt|) && RootsDone(g, |g.rootgc|)
    ensures Clean(g)
  {
    forall r | r in g.objs ensures Fresh(g, r) {
      assert HomeAt(g, r) && StringDoneAt(g, |g.strt|, r);
      if g.objs[r].kind != KString {
        if IsOpen(g.objs[r]) {
          var t := g.objs[r].slot.thread;
          assert HomeAt(g, t);
          var i :| 0 <= i < |g.rootgc| && g.rootgc[i] == t;
          var j :| 0 <= j < |g.openupval[t]| && g.openupval[t][j] == r;
          assert OpenDoneAt(g, |g.rootgc|, i, j);
        } else {
          var i :| 0 <= i < |g.rootgc| && g.rootgc[i] == r;
          assert RootDoneAt(g, |g.rootgc|, i);
        }
      }
    }
  }

  lemma StringsStayDone(g0: G, g1: G, n: int)
    requires StringsDone(g0, n) && Swept(g0, g1)
    ensures StringsDone(g1, n)
  {
    forall r ensures StringDoneAt(g1, n, r) {
      assert StringDoneAt(g0, n, r) && SweptAt(g0, g1, r);
    }
  }

  ghost predicate FixedOnly(g: G, main: Ref) {
    main in g.roots && forall r :: r in g.objs && r in g.marked && g.marked[r].fixed ==> g.objs[r].kind == KString || r == main
  }

  /** The sweep cursor after an object was put in front of the root list. */
  function Shifted(n: nat): nat {
    if n > 0 then n + 1 else 0
  }

  lemma RootsStayDone(g0: G, g1: G, n: nat)
    requires RootsDone(g0, n) && Swept(g0, g1) && g1.rootgc == g0.rootgc
    requires forall t :: t in g1.openupval ==> t in g0.openupval && forall u :: u in g1.openupval[t] ==> u in g0.openupval[t]
    ensures RootsDone(g1, n)
  {
    forall i ensures RootDoneAt(g1, n, i) {
      assert RootDoneAt(g0, n, i);
      if 0 <= i < |g0.rootgc| { assert SweptAt(g0, g1, g0.rootgc[i]); }
    }
    forall i, j ensures OpenDoneAt(g1, n, i, j) {
      if 0 <= i < n && i < |g1.rootgc| && g1.rootgc[i] in g1.openupval && 0 <= j < |g1.openupval[g1.rootgc[i]]| {
        var t := g1.rootgc[i];
        var u := g1.openupval[t][j];
        assert u in g1.openupval[t] && u in g0.openupval[t];
        var k :| 0 <= k < |g0.openupval[t]| && g0.openupval[t][k] == u;
        assert OpenDoneAt(g0, n, i, k) && SweptAt(g0, g1, u);
      }
    }
  }

  /** One more object of the root list is done. */
  lemma RootsMoreDone(g: G, n: nat)
    requires RootsDone(g, n) && n < |g.rootgc| && Fresh(g, g.rootgc[n])
    requires g.rootgc[n] in g.openupval ==> forall j :: 0 <= j < |g.openupval[g.rootgc[n]]| ==> Fresh(g, g.openupval[g.rootgc[n]][j])
    ensures RootsDone(g, n + 1)
  {
    var m := n + 1;
    forall i ensures RootDoneAt(g, m, i) {
      assert RootDoneAt(g, n, i);
    }
    forall i, j ensures OpenDoneAt(g, m, i, j) {
      assert OpenDoneAt(g, n, i, j);
    }
  }

  /** A fresh object in front of the list does not disturb the sweep. */
  lemma RootsShift(g0: G, g1: G, n: nat, u: Ref)
    requires RootsDone(g0, n) && n <= |g0.rootgc| && Swept(g0, g1) && g1.rootgc == [u] + g0.rootgc && Fresh(g1, u) && u !in g1.openupval
    requires forall s :: s in g1.openupval ==> s in g0.openupval && forall v :: v in g1.openupval[s] ==> v in g0.openupval[s]
    ensures RootsDone(g1, Shifted(n))
  {
    var m := Shifted(n);
    forall i ensures RootDoneAt(g1, m, i) {
      assert RootDoneAt(g0, n, i - 1);
      if 0 < i <= |g0.rootgc| { assert SweptAt(g0, g1, g0.rootgc[i - 1]); }
    }
    forall i, j ensures OpenDoneAt(g1, m, i, j) {
      if 0 < i < m && i < |g1.rootgc| && g1.rootgc[i] in g1.openupval && 0 <= j < |g1.openupval[g1.rootgc[i]]| {
        var s := g1.rootgc[i];
        var v := g1.openupval[s][j];
        assert v in g1.openupval[s] && v in g0.openupval[s] && s == g0.rootgc[i - 1];
        var k :| 0 <= k < |g0.openupval[s]| && g0.openupval[s][k] == v;
        var i' := i - 1;
        assert OpenDoneAt(g0, n, i', k) && SweptAt(g0, g1, v);
      }
    }
  }

  /** An object that is freed at the cursor. */
  lemma RootsFreed(g0: G, g1: G, n: nat)
    requires RootsDone(g0, n) && n < |g0.rootgc| && Swept(g0, g1) && Distinct(g0.rootgc)
    requires g1.rootgc == g0.rootgc[..n] + g0.rootgc[n + 1..] && g1.openupval == Without(g0.openupval, g0.rootgc[n])
    ensures RootsDone(g1, n)
  {
    forall i ensures RootDoneAt(g1, n, i) {
      assert RootDoneAt(g0, n, i);
      if 0 <= i < n { assert SweptAt(g0, g1, g0.rootgc[i]); }
    }
    forall i, j ensures OpenDoneAt(g1, n, i, j) {
      assert OpenDoneAt(g0, n, i, j);
      if 0 <= i < n && g0.rootgc[i] in g0.openupval && 0 <= j < |g0.openupval[g0.rootgc[i]]| {
        assert SweptAt(g0, g1, g0.openupval[g0.rootgc[i]][j]);
      }
    }
  }

  // ---------------------------------------------------------------------------
  // The mark phase and the heap
  // ---------------------------------------------------------------------------

  /** While the collector marks, every object is alive. */
  lemma MarkingSound(g: G, m: M, X: set<Ref>, E: set<Ref>, P: set<Ref>)
    requires Shape(g) && Marking(m, g.cw, X, E, P) && m.objs == g.objs && m.marked == g.marked && g.roots <= g.objs.Keys
    ensures Sound(g) && Alive(g) == g.objs.Keys
  {
    forall r ensures PaintAt(g, r) {
      assert ColourAt(m, g.cw, r) && KindAt(m, r);
    }
    forall r | r in g.objs ensures r in Alive(g) {
      assert ColourAt(m, g.cw, r);
    }
    assert Alive(g) == g.objs.Keys;
  }

  /** The start of a cycle: everything is white, nothing is in a list. */
  lemma StartMarking(g: G, m: M, P: set<Ref>)
    requires Sound(g) && Clean(g) && m == M(g.objs, g.marked, [], []) && ClosedSet(g.objs, P)
    ensures Marking(m, g.cw, {}, g.objs.Keys, P)
  {
    forall r ensures ColourAt(m, g.cw, r) && GrayAt(m, {}, r) && KindAt(m, r) && ListAt(m, r) {
      assert r in g.objs ==> Fresh(g, r);
      assert PaintAt(g, r);
    }
    forall r, c ensures BlackAt(m, {}, r, c) && SettledAt(m, g.objs.Keys, {}, r, c) {
      assert r in g.objs ==> Fresh(g, r);
    }
    assert Alive(g) == g.objs.Keys by {
      forall r | r in g.objs ensures r in Alive(g) { assert Fresh(g, r); }
    }
  }

  /** The marked objects. */
  ghost function Marked(m: M): set<Ref> {
    set r | r in m.marked && !IsWhite(m.marked[r])
  }

  /** When nothing is left to traverse, no reference leads from a marked object to an unmarked one. */
  lemma MarkedClosed(m: M, cw: Mark, P: set<Ref>)
    requires Marking(m, cw, {}, {}, P) && m.gray == []
    ensures ClosedSet(m.objs, Marked(m))
  {
    forall r, c ensures ClosedAt(m.objs, Marked(m), r, c) {
      assert BlackAt(m, {}, r, c) && GrayAt(m, {}, r) && SettledAt(m, {}, {}, r, c) && LeafAt(m.objs, r);
      assert r in m.objs ==> (IsOpen(m.objs[r]) ==> m.objs[r].kind == KUpval);
    }
  }

  /** After the flip the marked objects are exactly the live ones. */
  lemma Flip(g0: G, g1: G, m: M, P: set<Ref>)
    requires Shape(g0) && Marking(m, g0.cw, {}, {}, P) && m.gray == [] && m.objs == g0.objs && m.marked == g0.marked
    requires g0.roots <= Marked(m) && g1 == g0.(cw := OtherWhite(g0.cw))
    ensures Sound(g1) && Alive(g1) == Marked(m) && Alive(g1) <= P
    ensures forall r :: !Fresh(g1, r)
  {
    MarkedClosed(m, g0.cw, P);
    ShapeMarks(g0, g1);
    forall r ensures PaintAt(g1, r) && (r in Alive(g1) <==> r in Marked(m)) && !Fresh(g1, r) {
      assert ColourAt(m, g0.cw, r) && KindAt(m, r);
      if r in m.marked { FlipMeaning(g0.cw, m.marked[r]); }
    }
    assert Alive(g1) == Marked(m);
  }

  /** Settling more: an open upvalue whose children are marked need not be excepted any longer. */
  lemma SettleMore(m: M, cw: Mark, E: set<Ref>, P: set<Ref>, u: Ref)
    requires Marking(m, cw, {}, E, P) && u in m.objs && IsOpen(m.objs[u])
    requires NonWhite(m.marked, u) ==> forall v :: v in FieldsOf(m.objs, u) ==> v.Ref? ==> NonWhite(m.marked, v.r)
    ensures Marking(m, cw, {}, E - {u}, P)
  {
    forall r, c ensures SettledAt(m, E - {u}, {}, r, c) {
      assert SettledAt(m, E, {}, r, c) && ListAt(m, r);
      assert r == u && Edge(m.objs, u, c) ==> Val.Ref(c) in FieldsOf(m.objs, u);
    }
  }

  /** The list of objects caught by barriers becomes the gray list. */
  lemma Regray(m0: M, m1: M, cw: Mark, E: set<Ref>, P: set<Ref>)
    requires Marking(m0, cw, {}, E, P) && m0.gray == [] && m1 == m0.(gray := m0.again, again := [])
    requires forall r :: r in m0.objs && IsOpen(m0.objs[r]) ==> r !in E
    ensures Marking(m1, cw, {}, {}, P)
  {
    assert m0.gray + m0.again == m0.again && m1.gray + m1.again == m0.again;
    forall r ensures ColourAt(m1, cw, r) && GrayAt(m1, {}, r) && KindAt(m1, r) && ListAt(m1, r) {
      assert ColourAt(m0, cw, r) && GrayAt(m0, {}, r) && KindAt(m0, r) && ListAt(m0, r);
    }
    forall r, c ensures BlackAt(m1, {}, r, c) && SettledAt(m1, {}, {}, r, c) {
      assert BlackAt(m0, {}, r, c) && SettledAt(m0, E, {}, r, c);
    }
  }

  /** The topmost open upvalue of a thread is closed while the collector marks. */
  lemma CloseMarking(m0: M, m1: M, cw: Mark, E: set<Ref>, P: set<Ref>, u: Ref, gray: bool)
    requires Marking(m0, cw, {}, E, P) && u in m0.objs && IsOpen(m0.objs[u]) && gray == IsGray(m0.marked[u])
    requires m0.objs.Keys <= E && forall r :: r in m0.objs && IsOpen(m0.objs[r]) ==> m0.objs[r].slot.thread != u
    requires m1 == m0.(objs := m0.objs[u := m0.objs[u].(fields := FieldsOf(m0.objs, u), slot := Closed)],
                       marked := if gray then m0.marked[u := Gray2Black(m0.marked[u])] else m0.marked)
    ensures Marking(m1, cw, if gray then {u} else {}, E, P)
    ensures FieldsOf(m1.objs, u) == FieldsOf(m0.objs, u)
  {
    var X: set<Ref> := if gray then {u} else {};
    assert KindAt(m0, u) && ListAt(m0, u);
    forall r ensures r in m0.objs ==> FieldsOf(m1.objs, r) == FieldsOf(m0.objs, r) {
    }
    forall r ensures ColourAt(m1, cw, r) && GrayAt(m1, X, r) && KindAt(m1, r) && ListAt(m1, r) && LeafAt(m1.objs, r) {
      assert ColourAt(m0, cw, r) && GrayAt(m0, {}, r) && KindAt(m0, r) && ListAt(m0, r) && LeafAt(m0.objs, r);
    }
    forall r, c ensures BlackAt(m1, X, r, c) && SettledAt(m1, E, X, r, c) && ClosedAt(m1.objs, P, r, c)
                        && ClosedAt(m1.objs, m1.objs.Keys, r, c) {
      assert BlackAt(m0, {}, r, c) && SettledAt(m0, E, {}, r, c) && ClosedAt(m0.objs, P, r, c) && ClosedAt(m0.objs, m0.objs.Keys, r, c);
    }
  }

  // ---------------------------------------------------------------------------
  // The program changes the heap
  // ---------------------------------------------------------------------------

  ghost predicate AllIn(values: seq<Val>, A: set<Ref>) {
    forall i :: 0 <= i < |values| && values[i].Ref? ==> values[i].r in A
  }

  /** A store into an object; a stack may change as long as the slots of its open upvalues remain. */
  ghost predicate Stored(g0: G, g1: G, o: Ref, fields: seq<Val>) {
    && o in g0.objs && g1 == g0.(objs := g0.objs[o := g0.objs[o].(fields := fields)])
    && !IsOpen(g0.objs[o]) && g0.objs[o].kind != KString && (g0.objs[o].kind == KUpval ==> |fields| == 1)
    && (g0.objs[o].kind == KThread ==> |fields| > 0 && forall u :: u in g0.objs && IsOpen(g0.objs[u]) && g0.objs[u].slot.thread == o ==> g0.objs[u].slot.i < |fields|)
  }

  lemma StoreSound(g0: G, g1: G, o: Ref, fields: seq<Val>)
    requires Sound(g0) && Stored(g0, g1, o, fields) && AllIn(fields, Alive(g0))
    ensures Sound(g1) && Alive(g1) == Alive(g0) && forall r :: Fresh(g1, r) <==> Fresh(g0, r)
  {
    forall r ensures HomeAt(g1, r) && LeafAt(g1.objs, r) && HeadAt(g1, r) && PaintAt(g1, r) {
      assert HomeAt(g0, r) && LeafAt(g0.objs, r) && HeadAt(g0, r) && PaintAt(g0, r);
    }
    forall i: int ensures RootAt(g1, i) && StringAt(g1, i) { assert RootAt(g0, i) && StringAt(g0, i); }
    forall h: int, i: int ensures BucketAt(g1, h, i) { assert BucketAt(g0, h, i); }
    forall t, i ensures OpenAt(g1, t, i) { assert OpenAt(g0, t, i); }
    forall t, i, j ensures OrderAt(g1, t, i, j) { assert OrderAt(g0, t, i, j); }
    assert Alive(g1) == Alive(g0);
    forall r, c ensures ClosedAt(g1.objs, Alive(g1), r, c) {
      assert ClosedAt(g0.objs, Alive(g0), r, c) && HomeAt(g0, r);
    }
  }

  /** The same store seen by the mark phase, except for the object itself. */
  lemma StoreMarking(m0: M, m1: M, cw: Mark, E: set<Ref>, o: Ref, fields: seq<Val>)
    requires Marking(m0, cw, {}, E, E) && E == m0.objs.Keys && o in m0.objs && !IsOpen(m0.objs[o]) && m0.objs[o].kind != KString
    requires m1 == m0.(objs := m0.objs[o := m0.objs[o].(fields := fields)]) && AllIn(fields, E)
    ensures Marking(m1, cw, {o}, E, E)
    ensures !IsBlack(m0.marked[o]) ==> Marking(m1, cw, {}, E, E)
  {
    forall r ensures ColourAt(m1, cw, r) && GrayAt(m1, {}, r) && GrayAt(m1, {o}, r) && KindAt(m1, r) && ListAt(m1, r) && LeafAt(m1.objs, r) {
      assert ColourAt(m0, cw, r) && GrayAt(m0, {}, r) && KindAt(m0, r) && ListAt(m0, r) && LeafAt(m0.objs, r);
    }
    forall r, c ensures BlackAt(m1, {o}, r, c) && ClosedAt(m1.objs, E, r, c) && ClosedAt(m1.objs, m1.objs.Keys, r, c)
      ensures !IsBlack(m0.marked[o]) ==> BlackAt(m1, {}, r, c)
      ensures SettledAt(m1, E, {}, r, c) && SettledAt(m1, E, {o}, r, c)
    {
      assert BlackAt(m0, {}, r, c) && ClosedAt(m0.objs, E, r, c) && KindAt(m0, r);
    }
  }

  /** luaC_barrierback: a black table becomes gray again and waits for the atomic phase. */
  lemma BackMarking(m0: M, m1: M, cw: Mark, E: set<Ref>, o: Ref)
    requires Marking(m0, cw, {o}, E, E) && E == m0.objs.Keys && o in m0.objs && m0.objs[o].kind == KTable && IsBlack(m0.marked[o])
    requires m1 == m0.(marked := m0.marked[o := Black2Gray(m0.marked[o])], again := [o] + m0.again)
    ensures Marking(m1, cw, {}, E, E)
  {
    assert ListAt(m0, o) && ColourAt(m0, cw, o);
    PushDistinct(o, m0.gray, m0.again);
    forall r ensures ColourAt(m1, cw, r) && GrayAt(m1, {}, r) && KindAt(m1, r) && ListAt(m1, r) {
      assert ColourAt(m0, cw, r) && GrayAt(m0, {o}, r) && KindAt(m0, r) && ListAt(m0, r);
    }
    forall r, c ensures BlackAt(m1, {}, r, c) && SettledAt(m1, E, {}, r, c) {
      assert BlackAt(m0, {o}, r, c) && SettledAt(m0, E, {o}, r, c);
    }
  }

  /** A black object painted gray during a sweep. */
  lemma GraySound(g0: G, g1: G, o: Ref)
    requires Sound(g0) && o in g0.marked && IsBlack(g0.marked[o]) && g1 == g0.(marked := g0.marked[o := Black2Gray(g0.marked[o])])
    ensures Sound(g1) && Alive(g1) == Alive(g0) && forall r :: Fresh(g1, r) <==> Fresh(g0, r)
  {
    ShapeMarks(g0, g1);
    assert PaintAt(g0, o);
    forall r ensures PaintAt(g1, r) { assert PaintAt(g0, r); }
    assert Alive(g1) == Alive(g0);
  }

  lemma StillDone(g0: G, g1: G, k: int, n: int)
    requires forall r :: Fresh(g0, r) ==> Fresh(g1, r)
    requires g1.rootgc == g0.rootgc && g1.openupval == g0.openupval && g1.objs.Keys == g0.objs.Keys
    requires forall r :: r in g0.objs ==> g1.objs[r].kind == g0.objs[r].kind && g1.objs[r].bucket == g0.objs[r].bucket
    ensures Clean(g0) ==> Clean(g1)
    ensures StringsDone(g0, k) ==> StringsDone(g1, k)
    ensures RootsDone(g0, n) ==> RootsDone(g1, n)
  {
    if StringsDone(g0, k) {
      forall r ensures StringDoneAt(g1, k, r) { assert StringDoneAt(g0, k, r); }
    }
    if RootsDone(g0, n) {
      forall i ensures RootDoneAt(g1, n, i) { assert RootDoneAt(g0, n, i); }
      forall i, j ensures OpenDoneAt(g1, n, i, j) { assert OpenDoneAt(g0, n, i, j); }
    }
  }

  /** A new object in front of the root list (luaC_link). */
  ghost predicate Linked(g0: G, g1: G, r: Ref, o: Obj, cw: Mark) {
    && r !in g0.objs && !IsOpen(o) && o.kind != KString && (o.kind == KThread ==> |o.fields| > 0) && (o.kind == KUpval ==> |o.fields| == 1)
    && g1 == g0.(objs := g0.objs[r := o], marked := g0.marked[r := Mark(cw.w0, cw.w1, false, false)], rootgc := [r] + g0.rootgc,
                 openupval := if o.kind == KThread then g0.openupval[r := []] else g0.openupval)
  }

  lemma LinkShape(g0: G, g1: G, r: Ref, o: Obj)
    requires Shape(g0) && Linked(g0, g1, r, o, g0.cw)
    ensures Shape(g1)
  {
    assert r !in g0.rootgc by {
      forall i | 0 <= i < |g0.rootgc| ensures g0.rootgc[i] != r { assert RootAt(g0, i); }
    }
    assert g0.rootgc + [] == g0.rootgc;
    PushDistinct(r, g0.rootgc, []);
    assert [r] + g0.rootgc + [] == [r] + g0.rootgc;
    assert OpenAt(g0, r, 0);
    forall q ensures HomeAt(g1, q) && LeafAt(g1.objs, q) && HeadAt(g1, q) {
      assert HomeAt(g0, q) && LeafAt(g0.objs, q) && HeadAt(g0, q);
    }
    forall i: int ensures RootAt(g1, i) && StringAt(g1, i) { assert RootAt(g0, i - 1) && StringAt(g0, i); }
    forall h: int, i: int ensures BucketAt(g1, h, i) { assert BucketAt(g0, h, i); }
    forall t, i ensures OpenAt(g1, t, i) { assert OpenAt(g0, t, i); }
    forall t, i, j ensures OrderAt(g1, t, i, j) { assert OrderAt(g0, t, i, j); }
  }

  lemma LinkSound(g0: G, g1: G, r: Ref, o: Obj)
    requires Sound(g0) && Linked(g0, g1, r, o, g0.cw) && AllIn(o.fields, Alive(g0))
    ensures Sound(g1) && Alive(g1) == Alive(g0) + {r} && Fresh(g1, r)
    ensures forall q :: Fresh(g0, q) ==> Fresh(g1, q)
  {
    hide Shape;
    LinkShape(g0, g1, r, o);
    forall q ensures PaintAt(g1, q) && (q in g0.objs <==> q in g0.marked) {
      assert PaintAt(g0, q);
      PlaceOf(g0, q);
    }
    assert Alive(g1) == Alive(g0) + {r};
    forall q, c ensures ClosedAt(g1.objs, Alive(g1), q, c) {
      assert ClosedAt(g0.objs, Alive(g0), q, c);
      PlaceOf(g0, q);
    }
  }

  lemma LinkDone(g0: G, g1: G, r: Ref, o: Obj, k: int, n: nat)
    requires Shape(g0) && Linked(g0, g1, r, o, g0.cw) && Fresh(g1, r) && (forall q :: Fresh(g0, q) ==> Fresh(g1, q))
    ensures StringsDone(g0, k) ==> StringsDone(g1, k)
    ensures RootsDone(g0, n) && n <= |g0.rootgc| ==> RootsDone(g1, Shifted(n))
  {
    if StringsDone(g0, k) {
      forall q ensures StringDoneAt(g1, k, q) { assert StringDoneAt(g0, k, q); }
    }
    if RootsDone(g0, n) && n <= |g0.rootgc| {
      var m := Shifted(n);
      forall i ensures RootDoneAt(g1, m, i) { assert RootDoneAt(g0, n, i - 1); }
      forall i, j ensures OpenDoneAt(g1, m, i, j) {
        var i' := i - 1;
        assert OpenDoneAt(g0, n, i', j) && RootAt(g0, i') && OpenAt(g0, r, 0);
      }
    }
  }

  lemma LinkMarking(m0: M, m1: M, cw: Mark, r: Ref, o: Obj)
    requires Marking(m0, cw, {}, m0.objs.Keys, m0.objs.Keys) && r !in m0.objs && !IsOpen(o)
    requires (o.kind == KString ==> o.fields == []) && AllIn(o.fields, m0.objs.Keys)
    requires forall u :: u in m0.objs && IsOpen(m0.objs[u]) ==> m0.objs[u].slot.thread in m0.objs
    requires m1 == m0.(objs := m0.objs[r := o], marked := m0.marked[r := Mark(cw.w0, cw.w1, false, false)])
    ensures Marking(m1, cw, {}, m1.objs.Keys, m1.objs.Keys)
  {
    forall q ensures ColourAt(m1, cw, q) && GrayAt(m1, {}, q) && KindAt(m1, q) && ListAt(m1, q) && LeafAt(m1.objs, q) {
      assert ColourAt(m0, cw, q) && GrayAt(m0, {}, q) && KindAt(m0, q) && ListAt(m0, q) && LeafAt(m0.objs, q);
    }
    forall q, c ensures BlackAt(m1, {}, q, c) && ClosedAt(m1.objs, m1.objs.Keys, q, c) && SettledAt(m1, m1.objs.Keys, {}, q, c) {
      assert BlackAt(m0, {}, q, c) && ClosedAt(m0.objs, m0.objs.Keys, q, c);
    }
  }

  /** A new string in front of its bucket. */
  ghost predicate Interned(g0: G, g1: G, r: Ref, h: nat) {
    && r !in g0.objs && h < |g0.strt|
    && g1 == g0.(objs := g0.objs[r := Obj(KString, [], Closed, h)], marked := g0.marked[r := Mark(g0.cw.w0, g0.cw.w1, false, false)],
                 strt := g0.strt[h := [r] + g0.strt[h]])
  }

  lemma StringShape(g0: G, g1: G, r: Ref, h: nat)
    requires Shape(g0) && Interned(g0, g1, r, h)
    ensures Shape(g1)
  {
    assert r !in g0.strt[h] by {
      forall i | 0 <= i < |g0.strt[h]| ensures g0.strt[h][i] != r { assert BucketAt(g0, h, i); }
    }
    assert g0.strt[h] + [] == g0.strt[h] && StringAt(g0, h);
    PushDistinct(r, g0.strt[h], []);
    assert [r] + g0.strt[h] + [] == [r] + g0.strt[h];
    forall q ensures HomeAt(g1, q) && LeafAt(g1.objs, q) && HeadAt(g1, q) {
      assert HomeAt(g0, q) && LeafAt(g0.objs, q) && HeadAt(g0, q);
    }
    forall i: int ensures RootAt(g1, i) && StringAt(g1, i) { assert RootAt(g0, i) && StringAt(g0, i); }
    forall h': int, i: int ensures BucketAt(g1, h', i) { assert BucketAt(g0, h', i) && BucketAt(g0, h', i - 1); }
    forall t, i ensures OpenAt(g1, t, i) { assert OpenAt(g0, t, i); }
    forall t, i, j ensures OrderAt(g1, t, i, j) { assert OrderAt(g0, t, i, j); }
  }

  lemma StringSound(g0: G, g1: G, r: Ref, h: nat)
    requires Sound(g0) && Interned(g0, g1, r, h)
    ensures Sound(g1) && Fresh(g1, r) && forall q :: Fresh(g0, q) ==> Fresh(g1, q)
  {
    hide Shape;
    StringShape(g0, g1, r, h);
    forall q ensures PaintAt(g1, q) && (q in g0.objs <==> q in g0.marked) {
      assert PaintAt(g0, q);
      PlaceOf(g0, q);
    }
    assert Alive(g1) == Alive(g0) + {r};
    forall q, c ensures ClosedAt(g1.objs, Alive(g1), q, c) {
      assert ClosedAt(g0.objs, Alive(g0), q, c);
      PlaceOf(g0, q);
    }
  }

  /** A dead string or open upvalue of a live thread comes back. */
  lemma ResurrectSound(g0: G, g1: G, r: Ref)
    requires Sound(g0) && r in g0.marked && IsDead(g0.cw, g0.marked[r])
    requires g0.objs[r].kind == KString || (IsOpen(g0.objs[r]) && g0.objs[r].slot.thread in Alive(g0))
    requires g1 == g0.(marked := g0.marked[r := ChangeWhite(g0.marked[r])])
    ensures Sound(g1) && Alive(g1) == Alive(g0) + {r} && forall q :: Fresh(g0, q) ==> Fresh(g1, q)
  {
    ShapeMarks(g0, g1);
    assert PaintAt(g0, r) && HomeAt(g0, r) && LeafAt(g0.objs, r);
    forall q ensures PaintAt(g1, q) { assert PaintAt(g0, q); }
    assert Alive(g1) == Alive(g0) + {r};
    forall q, c ensures ClosedAt(g1.objs, Alive(g1), q, c) {
      assert ClosedAt(g0.objs, Alive(g0), q, c);
      if q == r && Edge(g0.objs, r, c) {
        var t := g0.objs[r].slot.thread;
        assert FieldsOf(g0.objs, r)[0] in FieldsOf(g0.objs, t) && ClosedAt(g0.objs, Alive(g0), t, c);
      }
    }
  }

  /** A new open upvalue of a live thread, at its place in the list. */
  ghost predicate Opened(g0: G, g1: G, t: Ref, i: nat, pp: nat, r: Ref) {
    && t in g0.objs && g0.objs[t].kind == KThread && i < |g0.objs[t].fields| && t in g0.openupval && pp <= |g0.openupval[t]| && r !in g0.objs
    && (forall k :: 0 <= k < pp && g0.openupval[t][k] in g0.objs && IsOpen(g0.objs[g0.openupval[t][k]]) ==> g0.objs[g0.openupval[t][k]].slot.i > i)
    && (forall k :: pp <= k < |g0.openupval[t]| && g0.openupval[t][k] in g0.objs && IsOpen(g0.objs[g0.openupval[t][k]]) ==> g0.objs[g0.openupval[t][k]].slot.i < i)
    && g1 == g0.(objs := g0.objs[r := Obj(KUpval, [], Slot(t, i), 0)], marked := g0.marked[r := Mark(g0.cw.w0, g0.cw.w1, false, false)],
                 openupval := g0.openupval[t := g0.openupval[t][..pp] + [r] + g0.openupval[t][pp..]], uvhead := g0.uvhead + {r})
  }

  lemma OpenOrder(g0: G, g1: G, t: Ref, i: nat, pp: nat, r: Ref, q: Ref, k: int, l: int)
    requires Shape(g0) && Opened(g0, g1, t, i, pp, r)
    ensures OrderAt(g1, q, k, l)
  {
    if q == t {
      var s := g1.openupval[t];
      if 0 <= k < l < |s| {
        var k', l' := if k < pp then k else k - 1, if l < pp then l else l - 1;
        assert s[k] == if k < pp then g0.openupval[t][k] else if k == pp then r else g0.openupval[t][k - 1];
        assert s[l] == if l < pp then g0.openupval[t][l] else if l == pp then r else g0.openupval[t][l - 1];
        assert OrderAt(g0, t, k', l') && OpenAt(g0, t, k') && OpenAt(g0, t, l');
      }
    } else {
      assert OrderAt(g0, q, k, l) && OpenAt(g0, q, k) && OpenAt(g0, q, l);
    }
  }

  lemma OpenShape(g0: G, g1: G, t: Ref, i: nat, pp: nat, r: Ref)
    requires Shape(g0) && Opened(g0, g1, t, i, pp, r)
    ensures Shape(g1)
  {
    var s := g1.openupval[t];
    forall q ensures HomeAt(g1, q) && LeafAt(g1.objs, q) && HeadAt(g1, q) {
      assert HomeAt(g0, q) && LeafAt(g0.objs, q) && HeadAt(g0, q);
      if q in g0.objs && IsOpen(g0.objs[q]) && g0.objs[q].slot.thread == t {
        var k :| 0 <= k < |g0.openupval[t]| && g0.openupval[t][k] == q;
        assert s[if k < pp then k else k + 1] == q;
      }
      if q == r { assert s[pp] == r; }
    }
    forall i: int ensures RootAt(g1, i) && StringAt(g1, i) { assert RootAt(g0, i) && StringAt(g0, i); }
    forall h: int, i: int ensures BucketAt(g1, h, i) { assert BucketAt(g0, h, i); }
    forall q, k ensures OpenAt(g1, q, k) { assert OpenAt(g0, q, k) && OpenAt(g0, q, k - 1); }
    forall q, k, l ensures OrderAt(g1, q, k, l) { OpenOrder(g0, g1, t, i, pp, r, q, k, l); }
  }

  lemma OpenSound(g0: G, g1: G, t: Ref, i: nat, pp: nat, r: Ref)
    requires Sound(g0) && t in Alive(g0) && Opened(g0, g1, t, i, pp, r)
    ensures Sound(g1) && Alive(g1) == Alive(g0) + {r} && Fresh(g1, r) && forall q :: Fresh(g0, q) ==> Fresh(g1, q)
  {
    hide Shape;
    OpenShape(g0, g1, t, i, pp, r);
    forall q ensures PaintAt(g1, q) && (q in g0.objs <==> q in g0.marked) {
      assert PaintAt(g0, q);
      PlaceOf(g0, q);
    }
    assert Alive(g1) == Alive(g0) + {r};
    forall q, c ensures ClosedAt(g1.objs, Alive(g1), q, c) {
      assert ClosedAt(g0.objs, Alive(g0), q, c) && ClosedAt(g0.objs, Alive(g0), t, c);
      PlaceOf(g0, q);
    }
  }

  lemma OpenDone(g0: G, g1: G, t: Ref, i: nat, pp: nat, r: Ref, k: int, n: nat)
    requires Opened(g0, g1, t, i, pp, r) && Fresh(g1, r) && (forall q :: Fresh(g0, q) ==> Fresh(g1, q))
    ensures StringsDone(g0, k) ==> StringsDone(g1, k)
    ensures RootsDone(g0, n) ==> RootsDone(g1, n)
  {
    if StringsDone(g0, k) {
      forall q ensures StringDoneAt(g1, k, q) { assert StringDoneAt(g0, k, q); }
    }
    if RootsDone(g0, n) {
      forall j ensures RootDoneAt(g1, n, j) { assert RootDoneAt(g0, n, j); }
      forall j, l ensures OpenDoneAt(g1, n, j, l) {
        var l' := l - 1;
        assert OpenDoneAt(g0, n, j, l) && OpenDoneAt(g0, n, j, l');
      }
    }
  }

  /** A store through an open upvalue, into a stack whose thread may be dead. */
  lemma SlotSound(g0: G, g1: G, t: Ref, i: nat, v: Val)
    requires Sound(g0) && t in g0.objs && g0.objs[t].kind == KThread && i < |g0.objs[t].fields| && (v.Ref? ==> v.r in Alive(g0))
    requires Stored(g0, g1, t, g0.objs[t].fields[i := v])
    ensures Sound(g1) && Alive(g1) == Alive(g0) && forall r :: Fresh(g1, r) <==> Fresh(g0, r)
  {
    forall r ensures HomeAt(g1, r) && LeafAt(g1.objs, r) && HeadAt(g1, r) && PaintAt(g1, r) {
      assert HomeAt(g0, r) && LeafAt(g0.objs, r) && HeadAt(g0, r) && PaintAt(g0, r);
    }
    forall i: int ensures RootAt(g1, i) && StringAt(g1, i) { assert RootAt(g0, i) && StringAt(g0, i); }
    forall h: int, i: int ensures BucketAt(g1, h, i) { assert BucketAt(g0, h, i); }
    forall t, i ensures OpenAt(g1, t, i) { assert OpenAt(g0, t, i); }
    forall t, i, j ensures OrderAt(g1, t, i, j) { assert OrderAt(g0, t, i, j); }
    assert Alive(g1) == Alive(g0);
    forall r, c ensures ClosedAt(g1.objs, Alive(g1), r, c) {
      assert ClosedAt(g0.objs, Alive(g0), r, c) && HomeAt(g0, r);
    }
  }
}
