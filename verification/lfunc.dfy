/** Upvalues and the stack they point into (lfunc.c, and correctstack in ldo.c).  Collection of dead
    upvalues is the subject of LuaGc; here every upvalue is alive. */
module LuaUpvalues {

  type Value = int

  /** Where an upvalue's `v` points: to an address inside the stack, or to the upvalue's own field. */
  datatype Pointer = Stack(address: int) | Own

  datatype UpVal = UpVal(v: Pointer, value: Value)

  /** A thread: the address of its stack's first slot, the slots, the list of open upvalues, and all
      upvalues, open and closed. */
  datatype Thread = Thread(stack: int, slots: seq<Value>, openupval: seq<nat>, upvals: map<nat, UpVal>) {

    predicate IsOpen(u: nat) {
      u in upvals && upvals[u].v.Stack?
    }

    /** The slot an open upvalue points at. */
    function SlotOf(u: nat): int
      requires IsOpen(u)
    {
      upvals[u].v.address - stack
    }

    /** What a closure sees in upvalue u. */
    ghost function Deref(u: nat): Value
      requires u in upvals
    {
      if !IsOpen(u) then upvals[u].value
      else if 0 <= SlotOf(u) < |slots| then slots[SlotOf(u)] else 0
    }

    ghost predicate PointsInside(k: int) {
      0 <= k < |openupval| ==> IsOpen(openupval[k]) && 0 <= SlotOf(openupval[k]) < |slots|
    }

    /** The list goes down the stack, with at most one upvalue for a slot. */
    ghost predicate Descends(j: int, k: int) {
      0 <= j < k < |openupval| && IsOpen(openupval[j]) && IsOpen(openupval[k]) ==>
        SlotOf(openupval[j]) > SlotOf(openupval[k])
    }

    ghost predicate Valid() {
      && (forall k :: PointsInside(k))
      && (forall j, k :: Descends(j, k))
      && (forall u :: IsOpen(u) ==> u in openupval)
    }

    lemma Listed(u: nat) returns (k: int)
      requires Valid() && IsOpen(u)
      ensures 0 <= k < |openupval| && openupval[k] == u && 0 <= SlotOf(u) < |slots|
    {
      k :| 0 <= k < |openupval| && openupval[k] == u;
      assert PointsInside(k);
    }

    lemma AllOpen()
      requires Valid()
      ensures forall k :: 0 <= k < |openupval| ==> IsOpen(openupval[k])
    {
      forall k | 0 <= k < |openupval| ensures IsOpen(openupval[k]) {
        assert PointsInside(k);
      }
    }

    /** The k-th open upvalue is none of those before it. */
    lemma Apart(k: nat)
      requires Valid() && k < |openupval|
      ensures IsOpen(openupval[k]) && openupval[k] !in openupval[..k]
    {
      assert PointsInside(k);
      forall j | 0 <= j < k ensures openupval[j] != openupval[k] {
        assert Descends(j, k) && PointsInside(j) && PointsInside(k);
      }
    }

    /** Captures of one live slot share one upvalue. */
    lemma OnePerSlot(u: nat, w: nat)
      requires Valid() && IsOpen(u) && IsOpen(w) && SlotOf(u) == SlotOf(w)
      ensures u == w
    {
      var j := Listed(u);
      var k := Listed(w);
      assert Descends(j, k) && Descends(k, j);
    }
  }

  /** Every upvalue reads in t as it did in s, and none has been reopened. */
  ghost predicate SameReads(s: Thread, t: Thread) {
    forall u :: SameRead(s, t, u)
  }

  ghost predicate SameRead(s: Thread, t: Thread, u: nat) {
    u in s.upvals ==> u in t.upvals && t.Deref(u) == s.Deref(u) && (t.IsOpen(u) ==> s.IsOpen(u))
  }

  /** u stands for slot i: the shared variable of everybody who captured it. */
  ghost predicate StandsFor(t: Thread, u: nat, i: int) {
    t.IsOpen(u) && t.SlotOf(u) == i
  }

  lemma Removed(s: Thread, t: Thread)
    requires s.Valid() && s.openupval != []
    requires var u := s.openupval[0];
             u in s.upvals && t == s.(openupval := s.openupval[1..], upvals := s.upvals[u := UpVal(Own, s.Deref(u))])
    ensures t.Valid() && SameReads(s, t)
  {
    var u := s.openupval[0];
    forall k ensures t.PointsInside(k) {
      assert s.PointsInside(k + 1) && s.Descends(0, k + 1);
    }
    forall j, k ensures t.Descends(j, k) {
      assert s.Descends(j + 1, k + 1) && s.PointsInside(j + 1) && s.PointsInside(k + 1);
    }
    assert s.openupval == [u] + t.openupval;
    forall w | t.IsOpen(w) ensures w in t.openupval {
      assert w != u && s.IsOpen(w);
    }
    forall w ensures SameRead(s, t, w) {
    }
  }

  /** A new upvalue put in front of position k of the list. */
  lemma Inserted(s: Thread, t: Thread, k: int, i: int, u: nat)
    requires s.Valid() && 0 <= i < |s.slots| && u !in s.upvals && 0 <= k <= |s.openupval|
    requires forall j :: 0 <= j < k ==> s.IsOpen(s.openupval[j]) && s.SlotOf(s.openupval[j]) > i
    requires k < |s.openupval| ==> s.IsOpen(s.openupval[k]) && s.SlotOf(s.openupval[k]) < i
    requires t == s.(openupval := s.openupval[..k] + [u] + s.openupval[k..],
                     upvals := s.upvals[u := UpVal(Stack(s.stack + i), 0)])
    ensures t.Valid() && SameReads(s, t) && StandsFor(t, u, i) && t.Deref(u) == s.slots[i]
  {
    forall j ensures t.PointsInside(j) {
      assert s.PointsInside(j) && s.PointsInside(j - 1);
    }
    forall j, m ensures t.Descends(j, m) {
      assert s.Descends(j, m) && s.Descends(j, m - 1) && s.Descends(j - 1, m - 1) && s.Descends(k, m - 1);
      assert s.PointsInside(j) && s.PointsInside(j - 1) && s.PointsInside(m) && s.PointsInside(m - 1);
    }
    forall w | t.IsOpen(w) ensures w in t.openupval {
      if w == u {
        assert t.openupval[k] == u;
      } else {
        var j := s.Listed(w);
        assert t.openupval[if j < k then j else j + 1] == w;
      }
    }
    forall w ensures SameRead(s, t, w) {
    }
  }

  /** Writing a slot reaches exactly the closures that captured it. */
  lemma Written(s: Thread, t: Thread, i: int, v: Value)
    requires s.Valid() && 0 <= i < |s.slots| && t == s.(slots := s.slots[i := v])
    ensures t.Valid()
    ensures forall u :: u in s.upvals ==>
              t.Deref(u) == (if StandsFor(s, u, i) then v else s.Deref(u))
  {
    forall k ensures t.PointsInside(k) {
      assert s.PointsInside(k);
    }
    forall j, k ensures t.Descends(j, k) {
      assert s.Descends(j, k);
    }
    forall u | u in s.upvals ensures t.Deref(u) == (if StandsFor(s, u, i) then v else s.Deref(u)) {
      if s.IsOpen(u) {
        var k := s.Listed(u);
      }
    }
  }

  lemma NotCaptured(s: Thread, pp: nat, i: int, w: nat)
    requires s.Valid() && pp <= |s.openupval|
    requires forall j :: 0 <= j < pp ==> s.IsOpen(s.openupval[j]) && s.SlotOf(s.openupval[j]) > i
    requires pp < |s.openupval| ==> s.IsOpen(s.openupval[pp]) && s.SlotOf(s.openupval[pp]) < i
    ensures !StandsFor(s, w, i)
  {
    if s.IsOpen(w) {
      var k := s.Listed(w);
      assert s.Descends(pp, k);
    }
  }

  class LuaThread {
    var stack: int
    var slots: seq<Value>
    var openupval: seq<nat>
    var upvals: map<nat, UpVal>

    ghost function Now(): Thread
      reads this
    {
      Thread(stack, slots, openupval, upvals)
    }

    constructor (address: int, size: nat)
      ensures Now().Valid() && |slots| == size && upvals == map[]
    {
      stack, slots, openupval, upvals := address, seq(size, _ => 0), [], map[];
    }

    /** luaF_findupval: the upvalue of a slot, found or made at its place in the list; nothing any
        closure sees changes. */
    method FindUpval(i: nat, spare: nat) returns (u: nat)
      requires Now().Valid() && i < |slots| && spare !in upvals
      modifies `openupval, `upvals
      ensures Now().Valid() && SameReads(old(Now()), Now())
      ensures StandsFor(Now(), u, i) && Now().Deref(u) == slots[i]
      ensures (exists w :: StandsFor(old(Now()), w, i)) ==> StandsFor(old(Now()), u, i) && Now() == old(Now())
    {
      var level := stack + i;
      ghost var s := Now();
      var pp := 0;
      s.AllOpen();
      while pp < |openupval| && upvals[openupval[pp]].v.address >= level
        invariant 0 <= pp <= |openupval| && Now() == s
        invariant forall k :: 0 <= k < |openupval| ==> openupval[k] in upvals && upvals[openupval[k]].v.Stack?
        invariant forall j :: 0 <= j < pp ==> s.IsOpen(s.openupval[j]) && s.SlotOf(s.openupval[j]) > i
      {
        assert s.PointsInside(pp);
        var p := openupval[pp];
        if upvals[p].v.address == level {
          return p;
        }
        pp := pp + 1;
      }
      u := spare;
      forall w ensures !StandsFor(s, w, i) {
        NotCaptured(s, pp, i, w);
      }
      assert s.PointsInside(pp);
      openupval, upvals := openupval[..pp] + [u] + openupval[pp..], upvals[u := UpVal(Stack(level), 0)];
      Inserted(s, Now(), pp, i, u);
    }

    /** luaF_close: the upvalues from `level` up get their own copy; every closure goes on seeing what it
        saw, and the slots from `level` up are nobody's any more. */
    method Close(level: nat)
      requires Now().Valid()
      modifies `openupval, `upvals
      ensures Now().Valid() && SameReads(old(Now()), Now()) && upvals.Keys == old(upvals.Keys)
      ensures forall u :: Now().IsOpen(u) <==> old(Now()).IsOpen(u) && old(Now()).SlotOf(u) < level
    {
      ghost var s := Now();
      s.AllOpen();
      while openupval != [] && upvals[openupval[0]].v.address >= stack + level
        invariant Now().Valid() && SameReads(s, Now()) && upvals.Keys == s.upvals.Keys
        invariant forall k :: 0 <= k < |openupval| ==> openupval[k] in upvals && upvals[openupval[k]].v.Stack?
        invariant forall u :: Now().IsOpen(u) ==> s.IsOpen(u) && upvals[u] == s.upvals[u]
        invariant forall u :: s.IsOpen(u) && s.SlotOf(u) < level ==> Now().IsOpen(u)
        decreases |openupval|
      {
        ghost var now := Now();
        assert now.PointsInside(0);
        var uv := openupval[0];
        openupval := openupval[1..];
        upvals := upvals[uv := UpVal(Own, slots[upvals[uv].v.address - stack])];
        Removed(now, Now());
        SameReadsTrans(s, now, Now());
        Now().AllOpen();
      }
      ghost var t := Now();
      forall u | t.IsOpen(u) ensures t.SlotOf(u) < level {
        var k := t.Listed(u);
        assert t.Descends(0, k) && t.PointsInside(0);
      }
    }

    /** An assignment to a local variable. */
    method SetSlot(i: nat, v: Value)
      requires Now().Valid() && i < |slots|
      modifies `slots
      ensures Now().Valid() && slots == old(slots)[i := v]
      ensures forall u :: u in upvals ==>
                Now().Deref(u) == (if StandsFor(old(Now()), u, i) then v else old(Now()).Deref(u))
    {
      ghost var s := Now();
      slots := slots[i := v];
      Written(s, Now(), i, v);
    }

    /** OP_SETUPVAL: through the pointer, so an open upvalue writes the slot. */
    method SetUpval(u: nat, v: Value)
      requires Now().Valid() && u in upvals
      modifies `slots, `upvals
      ensures Now().Valid() && upvals.Keys == old(upvals.Keys)
      ensures forall w :: w in upvals ==> Now().Deref(w) == (if w == u then v else old(Now()).Deref(w))
      ensures |slots| == old(|slots|) && forall i :: 0 <= i < |slots| ==>
                slots[i] == (if StandsFor(old(Now()), u, i) then v else old(slots)[i])
    {
      ghost var s := Now();
      if upvals[u].v.Stack? {
        ghost var k := s.Listed(u);
        slots := slots[upvals[u].v.address - stack := v];
        Written(s, Now(), s.SlotOf(u), v);
        forall w | w in upvals ensures Now().Deref(w) == (if w == u then v else s.Deref(w)) {
          if StandsFor(s, w, s.SlotOf(u)) {
            s.OnePerSlot(u, w);
          }
        }
      } else {
        upvals := upvals[u := UpVal(Own, v)];
        ghost var t := Now();
        forall k ensures t.PointsInside(k) {
          assert s.PointsInside(k);
        }
        forall j, k ensures t.Descends(j, k) {
          assert s.Descends(j, k) && s.PointsInside(j) && s.PointsInside(k);
        }
      }
    }

    /** correctstack, the part about upvalues: every open upvalue is redirected into the new stack. */
    method CorrectStack(oldstack: int, ghost s: Thread)
      requires s.Valid() && s.openupval == openupval && s.upvals == upvals && s.stack == oldstack
      modifies `upvals
      ensures upvals.Keys == old(upvals.Keys)
      ensures forall u :: u in openupval ==> Moved(s, upvals, u)
      ensures forall u :: u in upvals && u !in openupval ==> upvals[u] == s.upvals[u]
    {
      hide Thread.Valid;
      var up := 0;
      while up < |openupval|
        invariant 0 <= up <= |openupval| && upvals.Keys == s.upvals.Keys
        invariant forall k :: 0 <= k < up ==> Moved(s, upvals, openupval[k])
        invariant forall u :: u in upvals && u !in openupval[..up] ==> upvals[u] == s.upvals[u]
      {
        s.Apart(up);
        CorrectOne(openupval[up], oldstack);
        assert openupval[..up + 1] == openupval[..up] + [openupval[up]];
        up := up + 1;
      }
      assert openupval[..up] == openupval;
    }

    /** One round of the loop in correctstack. */
    method CorrectOne(u: nat, oldstack: int)
      requires u in upvals && upvals[u].v.Stack?
      modifies `upvals
      ensures upvals == old(upvals)[u := old(upvals)[u].(v := Stack((old(upvals)[u].v.address - oldstack) + stack))]
    {
      upvals := upvals[u := upvals[u].(v := Stack((upvals[u].v.address - oldstack) + stack))];
    }

    /** luaD_reallocstack: the stack moves, grown or shrunk, and with it the open upvalues.  Whoever shrinks
        the stack keeps the slots that are in use. */
    method ReallocStack(newstack: int, newsize: nat)
      requires Now().Valid() && forall u :: Now().IsOpen(u) ==> Now().SlotOf(u) < newsize
      modifies this
      ensures Now().Valid() && SameReads(old(Now()), Now()) && stack == newstack && |slots| == newsize
      ensures forall i :: 0 <= i < |slots| && i < |old(slots)| ==> slots[i] == old(slots)[i]
      ensures forall u :: Now().IsOpen(u) <==> old(Now()).IsOpen(u)
      ensures forall u :: Now().IsOpen(u) ==> Now().SlotOf(u) == old(Now()).SlotOf(u)
    {
      hide Thread.Valid, SameReads;
      ghost var s := Now();
      var oldstack := stack;
      slots := if newsize <= |slots| then slots[..newsize] else slots + seq(newsize - |slots|, _ => 0);
      stack := newstack;
      CorrectStack(oldstack, s);
      Relocated(s, Now());
    }

    /** u has been redirected to where its slot is now. */
    ghost predicate Moved(s: Thread, ups: map<nat, UpVal>, u: nat)
      reads `stack
    {
      s.IsOpen(u) && u in ups && ups[u] == UpVal(Stack(stack + s.SlotOf(u)), s.upvals[u].value)
    }
  }

  lemma SameReadsTrans(s: Thread, t: Thread, r: Thread)
    requires SameReads(s, t) && SameReads(t, r)
    ensures SameReads(s, r)
  {
    forall u ensures SameRead(s, r, u) {
      assert SameRead(s, t, u) && SameRead(t, r, u);
    }
  }

  lemma Relocated(s: Thread, t: Thread)
    requires s.Valid() && t.openupval == s.openupval && t.upvals.Keys == s.upvals.Keys
    requires forall i :: 0 <= i < |s.slots| && i < |t.slots| ==> t.slots[i] == s.slots[i]
    requires forall u :: s.IsOpen(u) ==> s.SlotOf(u) < |t.slots|
    requires forall u :: u in t.openupval ==>
               s.IsOpen(u) && t.upvals[u] == UpVal(Stack(t.stack + s.SlotOf(u)), s.upvals[u].value)
    requires forall u :: u in t.upvals && u !in t.openupval ==> t.upvals[u] == s.upvals[u]
    ensures t.Valid() && SameReads(s, t)
    ensures forall u :: t.IsOpen(u) <==> s.IsOpen(u)
    ensures forall u :: t.IsOpen(u) ==> t.SlotOf(u) == s.SlotOf(u)
  {
    forall k ensures t.PointsInside(k) {
      assert s.PointsInside(k);
    }
    forall j, k ensures t.Descends(j, k) {
      assert s.Descends(j, k) && s.PointsInside(j) && s.PointsInside(k);
    }
    forall u ensures SameRead(s, t, u) {
      if s.IsOpen(u) {
        var k := s.Listed(u);
      }
    }
  }
}
