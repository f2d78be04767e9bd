/** Conditions, operators and whole expressions (lcode.c, and subexpr of lparser.c). */
module LuaExpressions {
  import opened LuaObject
  import opened Vm
  import opened CodeSemantics
  import opened LuaCode

  /** The pending jump of a comparison that is not in any list yet. */
  ghost function Own(e: ExpDesc): set<int> {
    if e.k.VJmp? then {e.k.info} else {}
  }

  // ---------------------------------------------------------------------------
  // Relinking lists and dropping test registers
  // ---------------------------------------------------------------------------

  /** A change that touches nothing but pending jumps (and their tests) keeps what a descriptor means. */
  lemma HeldSame(st0: St, st1: St, e: ExpDesc, T: seq<int>, F: seq<int>)
    requires Jumps(st0.c) && Jumps(st1.c) && Held(st0.c, st1.c) && st1.c.here == st0.c.here && EdOk(st0, e, T, F)
    ensures SameValue(st0, e, st1, e) && Jumps(Core(st0.c, e)) && Jumps(Core(st1.c, e))
    ensures Held(Core(st0.c, e), Core(st1.c, e))
  {
    var d0, d1 := Core(st0.c, e), Core(st1.c, e);
    var n := |st0.c.code|;
    assert JumpAt(st0.c, n - 1) && JumpAt(st0.c, n - 2) && HeldAt(st0.c, st1.c, n - 1) && HeldAt(st0.c, st1.c, n - 2);
    forall p ensures JumpAt(d0, p) && JumpAt(d1, p) {
      assert JumpAt(st0.c, p) && JumpAt(st1.c, p);
    }
    forall i ensures HeldAt(d0, d1, i) {
      assert HeldAt(st0.c, st1.c, i);
    }
    forall x ensures SameValueAt(x, st0, e, st1, e) {
      if Out(x, d0) != Stuck {
        HoldRun(x.env, d0, d1, x.s, x.R0);
        ExitsArePending(x.env, d0, x.s, x.R0);
      }
    }
  }

  lemma HeldEnds(c0: Code, c1: Code, n: int)
    requires Held(c0, c1) && EndsWithin(c0, n)
    ensures EndsWithin(c1, n)
  {
    forall i ensures TargetOk(c1, i, n) {
      assert TargetOk(c0, i, n) && HeldAt(c0, c1, i);
    }
  }

  lemma HeldLast(c0: Code, c1: Code, lasttarget: int)
    requires Held(c0, c1) && LastOk(c0, lasttarget)
    ensures LastOk(c1, lasttarget)
  {
    var n := |c0.code| - 1;
    assert HeldAt(c0, c1, n);
    if n >= 0 && EndsWithin(c0, n) {
      HeldEnds(c0, c1, n);
    }
  }

  lemma HeldDescriptor(st0: St, st1: St, e: ExpDesc, T: seq<int>, F: seq<int>, e1: ExpDesc, T1: seq<int>, F1: seq<int>)
    requires Jumps(st0.c) && Jumps(st1.c) && Held(st0.c, st1.c) && st1.c.here == st0.c.here && EdOk(st0, e, T, F)
    requires st1.k == st0.k && st1.lasttarget == st0.lasttarget && st1.freereg == st0.freereg
    requires e1.k == e.k && ListOf(st1.c.code, e1.t, T1) && ListOf(st1.c.code, e1.f, F1)
    requires Elems(T1) !! Elems(F1) && Elems(T1) + Elems(F1) <= st1.c.pend
    requires e.k.VJmp? ==> e.k.info !in T1 && e.k.info !in F1 && st1.c.code[e.k.info] == st0.c.code[e.k.info]
    ensures EdOk(st1, e1, T1, F1)
  {
    match e.k
    case VReloc(pc) =>
      HeldSame(st0, st1, e, T, F);
      HeldEnds(st0.c, st1.c, pc);
      HeldLast(Core(st0.c, e), Core(st1.c, e), st0.lasttarget);
      assert JumpAt(st0.c, pc) && HeldAt(st0.c, st1.c, pc);
    case VJmp(pc) =>
      HeldEnds(st0.c, st1.c, pc - 1);
      assert JumpAt(st0.c, pc - 1) && HeldAt(st0.c, st1.c, pc - 1);
      forall p | p in [pc] ensures 0 <= p < |st0.c.code| && st1.c.code[p] == st0.c.code[p] {}
      ListFrame(st0.c.code, st1.c.code, pc, [pc]);
    case _ =>
  }

  /** luaK_concat on a list of pending jumps. */
  ghost predicate Relinked(c0: Code, c1: Code, L: seq<int>) {
    && |c1.code| == |c0.code| && c1.pend == c0.pend && c1.here == c0.here
    && forall p :: 0 <= p < |c0.code| ==> c1.code[p] == c0.code[p] || (p in L && c1.code[p].Jmp?)
  }

  lemma RelinkKeeps(c0: Code, c1: Code, L: seq<int>)
    requires Jumps(c0) && Relinked(c0, c1, L) && Elems(L) <= c0.pend
    ensures Jumps(c1) && Held(c0, c1) && Frame(c0.code, c1.code, c0.pend - Elems(L))
    ensures forall p :: p in c0.pend ==> SameControl(c0.code, c1.code, p)
  {
    assert forall p :: p in L ==> p in Elems(L);
    forall p ensures JumpAt(c1, p) && HeldAt(c0, c1, p) {
      assert JumpAt(c0, p);
    }
    forall p | p in c0.pend ensures SameControl(c0.code, c1.code, p) {
      assert JumpAt(c0, p) && JumpAt(c0, p - 1);
    }
    forall p | p in c0.pend - Elems(L) ensures KeptJump(c0.code, c1.code, p) {
      assert JumpAt(c0, p) && SameControl(c0.code, c1.code, p);
    }
  }

  lemma RelinkValid(st0: St, st1: St, L: seq<int>)
    requires Jumps(st0.c) && Relinked(st0.c, st1.c, L) && Elems(L) <= st0.c.pend && st1 == st0.(c := st1.c)
    requires EndsWithin(st0.c, |st0.c.code|) && LastOk(st0.c, st0.lasttarget)
    ensures EndsWithin(st1.c, |st1.c.code|) && LastOk(st1.c, st1.lasttarget) && Extends(st0, st1)
  {
    RelinkKeeps(st0.c, st1.c, L);
    HeldEnds(st0.c, st1.c, |st0.c.code|);
    HeldLast(st0.c, st1.c, st0.lasttarget);
    if |st0.c.code| > 0 {
      assert HeldAt(st0.c, st1.c, |st0.c.code| - 1) && JumpAt(st0.c, |st0.c.code| - 1);
    }
  }

  /** luaK_concat(&l1, l2), when both are lists of pending jumps. */
  method Splice(fs: FuncState, l1: int, l2: int, ghost L1: seq<int>, ghost L2: seq<int>) returns (r: Result<int>)
    requires fs.Valid() && ListOf(fs.code, l1, L1) && ListOf(fs.code, l2, L2) && Elems(L1) !! Elems(L2)
    requires Elems(L1) + Elems(L2) <= fs.pend
    modifies fs`code
    ensures r.Success? ==>
              && fs.Valid() && ListOf(fs.code, r.value, L1 + L2) && Relinked(old(fs.C()), fs.C(), L1)
              && Held(old(fs.C()), fs.C()) && Extends(old(fs.S()), fs.S())
              && Frame(old(fs.code), fs.code, fs.pend - Elems(L1))
              && (forall p :: p in fs.pend ==> SameControl(old(fs.code), fs.code, p))
              && (L1 == [] ==> fs.code == old(fs.code))
    ensures r.Failure? ==> fs.AtLimit(r.error)
  {
    ghost var st0 := fs.S();
    r := fs.LuaKConcat(l1, l2, L1, L2);
    if r.Success? {
      RelinkKeeps(st0.c, fs.C(), L1);
      RelinkValid(st0, fs.S(), L1);
      HeadsApart(st0.c.code, fs.jlist, L1, fs.pend);
      JumpListApart(st0.c, fs.C(), fs.jpc, fs.jlist, L1);
    }
  }

  lemma JumpListApart(c0: Code, c1: Code, head: int, J: seq<int>, L: seq<int>)
    requires Jumps(c0) && Relinked(c0, c1, L) && ListOf(c0.code, head, J) && Elems(J) !! Elems(L)
    ensures ListOf(c1.code, head, J)
  {
    ListJumps(c0.code, head, J);
    forall p | p in J ensures 0 <= p < |c0.code| && c1.code[p] == c0.code[p] {
      assert p in Elems(J);
      assert p in L ==> p in Elems(L);
    }
    ListFrame(c0.code, c1.code, head, J);
  }

  // ---------------------------------------------------------------------------
  // Jumping on a condition
  // ---------------------------------------------------------------------------

  /** The test jumps through P when the truth of the value is `cond`; a jump carries the value. */
  ghost predicate BranchAt(x: At, st0: St, e: ExpDesc, st1: St, P: seq<int>, cond: bool, base: int) {
    var o, o' := Out(x, Core(st0.c, e)), Out(x, st1.c);
    PreAt(x, st0, st1.k) && x.s <= |Core(st0.c, e).code| && o != Stuck ==>
      if o.Fall? then
        match Rep(x.env, st0.c.code, e, o.R)
        case None => o' == Error
        case Some(v) => Branched(o.R, o', st1.c.code, P, cond, base, v)
      else
        o' == o
  }

  ghost predicate Branched(R: Regs, o: Outcome, code: seq<Instr>, P: seq<int>, cond: bool, base: int, v: Value) {
    if IsFalse(v) != cond
    then o.Exit? && o.p in P && Agree(R, o.R, base) && JumpVal(code, o.p, o.R, cond) == v
    else o.Fall? && Agree(R, o.R, base)
  }

  ghost predicate Branches(st0: St, e: ExpDesc, st1: St, P: seq<int>, cond: bool, base: int) {
    forall x :: BranchAt(x, st0, e, st1, P, cond, base)
  }

  lemma InRegister(st: St, e: ExpDesc)
    requires e.k.VNonReloc?
    ensures Delivers(st, e, st, e.k.info)
  {
  }

  /** discharge2anyreg */
  method Discharge2AnyReg(fs: FuncState, e: ExpDesc, ghost T: seq<int>, ghost F: seq<int>) returns (r: Result<ExpDesc>)
    requires fs.Valid() && EdOk(fs.S(), e, T, F) && !e.k.VJmp?
    modifies fs`code, fs`jpc, fs`jlist, fs`k, fs`h, fs`freereg, fs`maxstacksize
    ensures r.Success? ==>
              && fs.Valid() && fs.pend == old(fs.pend) && Frame(old(fs.code), fs.code, fs.pend)
              && Extends(old(fs.S()), fs.S())
              && EdOk(fs.S(), r.value, T, F) && r.value.k.VNonReloc? && r.value.t == e.t && r.value.f == e.f
              && Delivers(old(fs.S()), e, fs.S(), r.value.k.info)
              && (if e.k.VNonReloc? then r.value == e && fs.freereg == old(fs.freereg)
                  else r.value.k.info == old(fs.freereg) && fs.freereg == old(fs.freereg) + 1)
    ensures r.Failure? ==> fs.AtLimit(r.error)
  {
    hide Delivers, Frame;
    ghost var st0 := fs.S();
    if !e.k.VNonReloc? {
      var _ :- fs.LuaKReserveRegs(1);
      ghost var st1 := fs.S();
      r := fs.Discharge2Reg(e, fs.freereg - 1, T, F);
      if r.Failure? { return; }
      DeliversFree(st0, st1, e, fs.S(), st0.freereg);
    } else {
      FrameRefl(fs.C());
      InRegister(fs.S(), e);
      r := Success(e);
    }
  }

  lemma DeliversFree(st0: St, st1: St, e: ExpDesc, st2: St, reg: int)
    requires st1 == st0.(freereg := st1.freereg) && Delivers(st1, e, st2, reg)
    ensures Delivers(st0, e, st2, reg)
  {
    forall x ensures DeliverAt(x, st0, e, st2, reg) {
      assert DeliverAt(x, st1, e, st2, reg);
    }
  }

  lemma TestSetBranches(st0: St, e: ExpDesc, st1: St, st2: St, reg: int, pc: int, cond: bool, base: int)
    requires Delivers(st0, e, st1, reg) && Jumps(st1.c) && st2.k == st1.k
    requires Coded(st1.c, st2.c, [TestSet(NO_REG, reg, Int(cond)), Jmp(NO_JUMP)], {pc}) && pc == |st1.c.code| + 1
    requires base <= reg || e.k == VNonReloc(reg)
    ensures Branches(st0, e, st2, [pc], cond, base)
  {
    var n := |st1.c.code|;
    var t := TestSet(NO_REG, reg, Int(cond));
    assert st2.c.code[n] == st2.c.code[n..][0];
    forall x ensures BranchAt(x, st0, e, st2, [pc], cond, base) {
      assert DeliverAt(x, st0, e, st1, reg);
      if PreAt(x, st0, st2.k) && x.s <= |Core(st0.c, e).code| && Out(x, Core(st0.c, e)) != Stuck {
        CondJumpRun(x.env, st1.c, st2.c, t, x.s, x.R0);
      }
    }
  }

  /** A `not` is taken off again and its operand tested the other way round. */
  lemma NotBranches(st0: St, e: ExpDesc, st1: St, at: int, pc: int, cond: bool, base: int)
    requires e.k == VReloc(at) && 0 <= at < |st0.c.code| && st0.c.code[at].Not? && Jumps(Core(st0.c, e))
    requires Coded(Core(st0.c, e), st1.c, [Test(st0.c.code[at].b, Int(!cond)), Jmp(NO_JUMP)], {pc}) && pc == at + 1
    ensures Branches(st0, e, st1, [pc], cond, base)
  {
    var t := Test(st0.c.code[at].b, Int(!cond));
    assert st1.c.code[at] == st1.c.code[at..][0];
    forall x ensures BranchAt(x, st0, e, st1, [pc], cond, base) {
      if PreAt(x, st0, st1.k) && x.s <= at && Out(x, Core(st0.c, e)) != Stuck {
        CondJumpRun(x.env, Core(st0.c, e), st1.c, t, x.s, x.R0);
      }
    }
  }

  /** jumponcond */
  method JumpOnCond(fs: FuncState, e: ExpDesc, cond: bool, ghost T: seq<int>, ghost F: seq<int>) returns (r: Result<int>)
    requires fs.Valid() && EdOk(fs.S(), e, T, F) && LocalReg(e, fs.nactvar) && !e.k.VJmp?
    modifies fs`code, fs`jpc, fs`jlist, fs`k, fs`h, fs`freereg, fs`maxstacksize, fs`pend
    ensures r.Success? ==>
              && fs.Valid() && |old(fs.code)| <= r.value < |fs.code| && fs.pend == old(fs.pend) + {r.value}
              && Frame(old(fs.code), fs.code, old(fs.pend)) && Extends(old(fs.S()), fs.S())
              && fs.freereg == old(fs.freereg) && ListOf(fs.code, r.value, [r.value])
              && Branches(old(fs.S()), e, fs.S(), [r.value], cond, fs.freereg)
    ensures r.Failure? ==> fs.AtLimit(r.error)
  {
    if e.k.VReloc? {
      var ie := fs.code[e.k.info];
      if ie.Not? {
        r := UndoNot(fs, e, cond, T, F);
        return;
      }
    }
    ghost var st0 := fs.S();
    var a :- Discharge2AnyReg(fs, e, T, F);
    ghost var st1 := fs.S();
    fs.FreeExp(a);
    r := fs.CondJump(TestSet(NO_REG, a.k.info, Int(cond)));
    if r.Failure? { return; }
    TestSetBranches(st0, e, st1, fs.S(), a.k.info, r.value, cond, fs.freereg);
    FrameTrans(st0.c.code, st1.c.code, fs.code, st0.c.pend, st0.c.pend, st0.c.pend);
    ExtendsTrans(st0, st1, fs.S());
  }

  method UndoNot(fs: FuncState, e: ExpDesc, cond: bool, ghost T: seq<int>, ghost F: seq<int>) returns (r: Result<int>)
    requires fs.Valid() && EdOk(fs.S(), e, T, F) && e.k.VReloc? && fs.code[e.k.info].Not?
    modifies fs`code, fs`jpc, fs`jlist, fs`pend
    ensures r.Success? ==>
              && fs.Valid() && |old(fs.code)| <= r.value < |fs.code| && fs.pend == old(fs.pend) + {r.value}
              && Frame(old(fs.code), fs.code, old(fs.pend)) && Extends(old(fs.S()), fs.S())
              && ListOf(fs.code, r.value, [r.value])
              && Branches(old(fs.S()), e, fs.S(), [r.value], cond, fs.freereg)
    ensures r.Failure? ==> fs.AtLimit(r.error)
  {
    ghost var st0 := fs.S();
    var ie := fs.code[e.k.info];
    NoElems(fs.jlist);
    fs.code := fs.code[..e.k.info];
    CoreKeeps(st0, e, T, F);
    r := fs.CondJump(Test(ie.b, Int(!cond)));
    if r.Failure? { return; }
    NotBranches(st0, e, fs.S(), e.k.info, r.value, cond, fs.freereg);
    FrameTrans(st0.c.code, Core(st0.c, e).code, fs.code, st0.c.pend, st0.c.pend, st0.c.pend);
  }

  /** The code without the instruction of a relocatable descriptor is in order. */
  lemma CoreKeeps(st: St, e: ExpDesc, T: seq<int>, F: seq<int>)
    requires Jumps(st.c) && EdOk(st, e, T, F) && e.k.VReloc?
    ensures Jumps(Core(st.c, e)) && EndsWithin(Core(st.c, e), |Core(st.c, e).code|) && LastOk(Core(st.c, e), st.lasttarget)
    ensures Frame(st.c.code, Core(st.c, e).code, st.c.pend) && Core(st.c, e).here == {}
  {
    var d, n := Core(st.c, e), |Core(st.c, e).code|;
    forall p ensures JumpAt(d, p) {
      assert JumpAt(st.c, p);
    }
    forall i ensures TargetOk(d, i, n) {
      assert TargetOk(st.c, i, n);
    }
    forall p | p in st.c.pend ensures KeptJump(st.c.code, d.code, p) {
      assert JumpAt(st.c, p) && JumpAt(d, p);
    }
  }

  /** invertjump */
  method InvertJump(fs: FuncState, e: ExpDesc, ghost T: seq<int>, ghost F: seq<int>)
    requires fs.Valid() && EdOk(fs.S(), e, T, F) && e.k.VJmp?
    modifies fs`code
    ensures fs.Valid() && EdOk(fs.S(), e, T, F) && Extends(old(fs.S()), fs.S())
    ensures Frame(old(fs.code), fs.code, fs.pend) && Inverted(old(fs.S()), fs.S(), e.k.info)
  {
    ghost var st0 := fs.S();
    var i := fs.code[e.k.info - 1];
    fs.code := fs.code[e.k.info - 1 := Cmp(i.cmp, if i.a == 0 then 1 else 0, i.b, i.c)];
    InvertKeeps(st0, fs.S(), e, T, F);
    assert JumpAt(st0.c, e.k.info);
    NoElems(fs.jlist);
  }

  ghost predicate Inverted(st0: St, st1: St, pc: int) {
    && 1 <= pc < |st0.c.code| && st0.c.code[pc - 1].Cmp? && st1 == st0.(c := st1.c)
    && var i := st0.c.code[pc - 1];
       st1.c == Code(st0.c.code[pc - 1 := Cmp(i.cmp, 1 - i.a, i.b, i.c)], st0.c.pend, st0.c.here)
  }

  lemma InvertKeeps(st0: St, st1: St, e: ExpDesc, T: seq<int>, F: seq<int>)
    requires Jumps(st0.c) && EdOk(st0, e, T, F) && e.k.VJmp? && Inverted(st0, st1, e.k.info)
    requires EndsWithin(st0.c, |st0.c.code|)
    ensures Jumps(st1.c) && EdOk(st1, e, T, F) && Frame(st0.c.code, st1.c.code, st0.c.pend)
    ensures EndsWithin(st1.c, |st1.c.code|) && Core(st1.c, e) == Core(st0.c, e)
  {
    var pc, n := e.k.info, |st0.c.code|;
    assert JumpAt(st0.c, pc - 1);
    forall p ensures JumpAt(st1.c, p) {
      assert JumpAt(st0.c, p);
    }
    forall p | p in st0.c.pend ensures KeptJump(st0.c.code, st1.c.code, p) {
      assert JumpAt(st0.c, p) && JumpAt(st0.c, p - 1);
    }
    forall i ensures TargetOk(st1.c, i, n) {
      assert TargetOk(st0.c, i, n);
    }
    var m := pc - 1;
    forall i ensures TargetOk(st1.c, i, m) {
      assert TargetOk(st0.c, i, m);
    }
    ListsKept(st0, st1, e, T, F);
    forall p | p in [pc] ensures 0 <= p < n && st1.c.code[p] == st0.c.code[p] {}
    ListFrame(st0.c.code, st1.c.code, pc, [pc]);
    assert st1.c.code[..pc - 1] == st0.c.code[..pc - 1];
  }

  /** A comparison jumps by itself: on truth as it stands, on falsehood when inverted. */
  lemma JumpBranches(st0: St, e: ExpDesc, st1: St, T: seq<int>, F: seq<int>, cond: bool, base: int)
    requires Jumps(st0.c) && Jumps(st1.c) && EdOk(st0, e, T, F) && EdOk(st1, e, T, F) && e.k.VJmp?
    requires if cond then st1 == st0 else Inverted(st0, st1, e.k.info)
    ensures Branches(st0, e, st1, [e.k.info], cond, base)
  {
    var pc := e.k.info;
    var d := Core(st0.c, e);
    var n := |d.code|;
    assert JumpAt(st0.c, pc - 1);
    forall p ensures JumpAt(d, p) {
      assert JumpAt(st0.c, p);
    }
    assert d.code == st1.c.code[..n];
    assert JumpAt(st1.c, pc) && JumpAt(st0.c, pc);
    forall x ensures BranchAt(x, st0, e, st1, [pc], cond, base) {
      if Out(x, d) != Stuck {
        AppendRun(x.env, d, st1.c, x.s, x.R0);
      }
    }
  }

  /** After the branch: on through the list that waits, out through the list that was kept. */
  ghost predicate GoAt(x: At, st0: St, e: ExpDesc, open: seq<int>, st1: St, L: seq<int>, cond: bool, base: int) {
    var o, o' := Out(x, Core(st0.c, e)), Out(x, st1.c);
    PreAt(x, st0, st1.k) && x.s <= |Core(st0.c, e).code| && o != Stuck ==>
      if o.Fall? then
        match Rep(x.env, st0.c.code, e, o.R)
        case None => o' == Error
        case Some(v) => Branched(o.R, o', st1.c.code, L, cond, base, v)
      else if o.Exit? && o.p in open then
        o' == Fall(o.R)
      else
        o' == o
  }

  ghost predicate Goes(st0: St, e: ExpDesc, open: seq<int>, st1: St, L: seq<int>, cond: bool, base: int) {
    forall x :: GoAt(x, st0, e, open, st1, L, cond, base)
  }

  lemma GoFromBranch(st0: St, e: ExpDesc, st1: St, st2: St, open: seq<int>, K: seq<int>, P: seq<int>, cond: bool, base: int)
    requires Branches(st0, e, st1, P, cond, base) && Jumps(st1.c) && Jumps(st2.c) && Held(st1.c, st2.c) && st2.k == st1.k
    requires st2.c.here == st1.c.here + Elems(open) && Elems(open) !! Elems(P)
    requires SameControls(st1.c.code, st2.c.code, K + P)
    ensures Goes(st0, e, open, st2, K + P, cond, base)
  {
    forall x ensures GoAt(x, st0, e, open, st2, K + P, cond, base) {
      assert BranchAt(x, st0, e, st1, P, cond, base);
      var o1 := Out(x, st1.c);
      if o1 != Stuck {
        HoldRun(x.env, st1.c, st2.c, x.s, x.R0);
        ExitsArePending(x.env, st1.c, x.s, x.R0);
        if o1.Exit? && o1.p in P {
          assert o1.p in Elems(P) && o1.p in K + P && SameControl(st1.c.code, st2.c.code, o1.p);
        }
      }
    }
  }

  /** The end of luaK_goiftrue and luaK_goiffalse. */
  method CloseBranch(fs: FuncState, kept: int, pc: int, open: int, ghost K: seq<int>, ghost P: seq<int>, ghost O: seq<int>)
      returns (r: Result<int>)
    requires fs.Valid() && ListOf(fs.code, kept, K) && ListOf(fs.code, pc, P) && ListOf(fs.code, open, O)
    requires Elems(K) !! Elems(P) !! Elems(O) && Elems(K) + Elems(P) + Elems(O) <= fs.pend
    modifies fs`code, fs`jpc, fs`jlist, fs`pend, fs`lasttarget
    ensures r.Success? ==>
              && fs.Valid() && ListOf(fs.code, r.value, K + P) && fs.pend == old(fs.pend) - Elems(O)
              && Held(old(fs.C()), fs.C()) && fs.C().here == old(fs.C().here) + Elems(O)
              && Extends(old(fs.S()), fs.S()) && SameControls(old(fs.code), fs.code, K + P)
              && Frame(old(fs.code), fs.code, old(fs.pend) - Elems(K) - Elems(O))
    ensures r.Failure? ==> fs.AtLimit(r.error)
  {
    ghost var st0 := fs.S();
    var l :- Splice(fs, kept, pc, K, P);
    ghost var st1 := fs.S();
    KeptElsewhere(st0.c.code, fs.code, open, O, fs.pend - Elems(K));
    var _ :- fs.LuaKPatchToHere(open, O);
    CloseKeeps(st0, st1, fs.S(), K, P, O, l);
    ExtendsTrans(st0, st1, fs.S());
    FrameTrans(st0.c.code, st1.c.code, fs.code, fs.pend - Elems(K), fs.pend, fs.pend - Elems(K));
    r := Success(l);
  }

  lemma KeptElsewhere(code: seq<Instr>, code': seq<Instr>, head: int, L: seq<int>, P: set<int>)
    requires ListOf(code, head, L) && Frame(code, code', P) && Elems(L) <= P
    ensures ListOf(code', head, L)
  {
    forall p | p in L ensures KeptJump(code, code', p) {
      assert p in Elems(L);
    }
    ListFrame(code, code', head, L);
  }

  lemma CloseKeeps(st0: St, st1: St, st2: St, K: seq<int>, P: seq<int>, O: seq<int>, l: int)
    requires Jumps(st0.c) && Held(st0.c, st1.c) && Held(st1.c, st2.c) && st1.c.here == st0.c.here && st1.c.pend == st0.c.pend
    requires forall p :: p in st0.c.pend ==> SameControl(st0.c.code, st1.c.code, p)
    requires Frame(st1.c.code, st2.c.code, st2.c.pend) && st2.c.pend == st1.c.pend - Elems(O)
    requires ListOf(st1.c.code, l, K + P) && Elems(K) !! Elems(O) && Elems(P) !! Elems(O) && Elems(K) + Elems(P) <= st0.c.pend
    ensures ListOf(st2.c.code, l, K + P) && Held(st0.c, st2.c) && SameControls(st0.c.code, st2.c.code, K + P)
  {
    ElemsAppend(K, P);
    KeptElsewhere(st1.c.code, st2.c.code, l, K + P, st2.c.pend);
    forall p | p in K + P ensures SameControl(st0.c.code, st2.c.code, p) {
      assert p in Elems(K + P);
      assert KeptJump(st1.c.code, st2.c.code, p);
    }
    forall i ensures HeldAt(st0.c, st2.c, i) {
      assert HeldAt(st0.c, st1.c, i) && HeldAt(st1.c, st2.c, i);
    }
  }

  /** A constant descriptor stands for a string or a number. */
  ghost predicate TrueConstant(st: St, e: ExpDesc) {
    e.k.VK? ==> 0 <= e.k.info < |st.k| && !IsFalse(st.k[e.k.info])
  }

  lemma ConstantBranches(st: St, e: ExpDesc, cond: bool, base: int)
    requires TrueConstant(st, e)
    requires if cond then e.k.VNil? || e.k.VFalse? else e.k.VK? || e.k.VKNum? || e.k.VTrue?
    requires e.k.VKNum? ==> !IsFalse(e.k.nval)
    ensures Branches(st, e, st, [], cond, base)
  {
    forall x ensures BranchAt(x, st, e, st, [], cond, base) {
      if e.k.VK? && PreAt(x, st, st.k) {
        assert x.env.k(e.k.info) == st.k[e.k.info];
      }
    }
  }

  /** The switch of luaK_goiftrue (cond is false) and of luaK_goiffalse (cond is true): the last jump. */
  method BranchOn(fs: FuncState, e: ExpDesc, cond: bool, ghost T: seq<int>, ghost F: seq<int>)
      returns (r: Result<int>, ghost P: seq<int>)
    requires fs.Valid() && EdOk(fs.S(), e, T, F) && LocalReg(e, fs.nactvar) && TrueConstant(fs.S(), e)
    modifies fs`code, fs`jpc, fs`jlist, fs`k, fs`h, fs`freereg, fs`maxstacksize, fs`pend
    ensures r.Success? ==>
              && fs.Valid() && Extends(old(fs.S()), fs.S()) && fs.freereg == old(fs.freereg)
              && ListOf(fs.code, r.value, P) && fs.pend == old(fs.pend) + Elems(P)
              && Elems(P) !! (old(fs.pend) - Own(e)) && Elems(P) !! Elems(T) + Elems(F)
              && (e.k.VJmp? ==> Elems(P) == Own(e))
              && Frame(old(fs.code), fs.code, old(fs.pend))
              && Branches(old(fs.S()), e, fs.S(), P, cond, fs.freereg)
    ensures r.Failure? ==> fs.AtLimit(r.error)
  {
    ghost var st0 := fs.S();
    P := [];
    assert Elems([]) == {};
    if (if cond then e.k.VNil? || e.k.VFalse? else e.k.VK? || e.k.VKNum? || e.k.VTrue?) {
      ConstantBranches(st0, e, cond, fs.freereg);
      FrameRefl(fs.C());
      assert forall i :: LinkAt(fs.code, P, i);
      return Success(NO_JUMP), [];
    }
    if e.k.VJmp? {
      P := [e.k.info];
      assert Elems(P) == {e.k.info};
      if cond {
        FrameRefl(fs.C());
      } else {
        InvertJump(fs, e, T, F);
      }
      JumpBranches(st0, e, fs.S(), T, F, cond, fs.freereg);
      return Success(e.k.info), P;
    }
    r := JumpOnCond(fs, e, cond, T, F);
    if r.Failure? { return; }
    P := [r.value];
    assert Elems(P) == {r.value};
    NewJump(st0.c, r.value);
  }

  lemma NewJump(c: Code, p: int)
    requires Jumps(c) && |c.code| <= p
    ensures p !in c.pend
  {
    assert JumpAt(c, p);
  }

  lemma GoesFrom(st0: St, e0: ExpDesc, st1: St, e: ExpDesc, st2: St, T: seq<int>, F: seq<int>, L: seq<int>, cond: bool, base: int)
    requires SameValue(st0, e0, st1, e) && Extends(st0, st1) && Extends(st1, st2) && Own(e) == Own(e0)
    requires |Core(st1.c, e).code| == |Core(st0.c, e0).code| <= |st0.c.code|
    requires Frame(st0.c.code, st1.c.code, st0.c.pend) && st1.c.pend == st0.c.pend && Elems(T) + Elems(F) <= st0.c.pend
    requires Goes(st1, e, if cond then F else T, st2, L, cond, base)
    requires LeftPending(st1, e, T, F, st2, if cond then T else F, L)
    ensures Goes(st0, e0, if cond then F else T, st2, L, cond, base)
    ensures LeftPending(st0, e0, T, F, st2, if cond then T else F, L) && Extends(st0, st2)
  {
    var K, open, rest := if cond then T else F, if cond then F else T, st0.c.pend - Elems(T) - Elems(F) - Own(e);
    ExtendsTrans(st0, st1, st2);
    FrameTrans(st0.c.code, st1.c.code, st2.c.code, st0.c.pend, rest, rest);
    FrameControls(st0.c.code, st1.c.code, st0.c.pend, K);
    forall p | p in K ensures SameControl(st0.c.code, st2.c.code, p) {
      assert SameControl(st0.c.code, st1.c.code, p) && SameControl(st1.c.code, st2.c.code, p);
    }
    forall x ensures GoAt(x, st0, e0, open, st2, L, cond, base) {
      assert SameValueAt(x, st0, e0, st1, e) && GoAt(x, st1, e, open, st2, L, cond, base);
      if PreAt(x, st0, st2.k) && x.s <= |Core(st0.c, e0).code| {
        PreMono(x, st0, st1, st2.k);
      }
    }
  }

  /** luaK_goiftrue and luaK_goiffalse are mirror images: go on when the truth of the value is not `cond`
      (through the list `open`), leave when it is (through the list `kept`). */
  method GoIf(fs: FuncState, e0: ExpDesc, cond: bool, ghost T: seq<int>, ghost F: seq<int>)
      returns (r: Result<int>, ghost L: seq<int>)
    requires fs.Valid() && EdOk(fs.S(), e0, T, F) && LocalReg(e0, fs.nactvar) && TrueConstant(fs.S(), e0)
    modifies fs`code, fs`jpc, fs`jlist, fs`k, fs`h, fs`freereg, fs`maxstacksize, fs`pend, fs`lasttarget
    ensures r.Success? ==>
              && fs.Valid() && Extends(old(fs.S()), fs.S()) && fs.freereg == old(fs.freereg)
              && ListOf(fs.code, r.value, L)
              && LeftPending(old(fs.S()), e0, T, F, fs.S(), if cond then T else F, L)
              && Goes(old(fs.S()), e0, if cond then F else T, fs.S(), L, cond, fs.freereg)
    ensures r.Failure? ==> fs.AtLimit(r.error)
  {
    ghost var st0 := fs.S();
    L := [];
    var d := fs.LuaKDischargeVars(e0, T, F);
    if d.Failure? { return Failure(d.error), []; }
    ghost var st1 := fs.S();
    r, L := GoDischarged(fs, d.value, cond, T, F);
    if r.Failure? { return; }
    GoesFrom(st0, e0, st1, d.value, fs.S(), T, F, L, cond, fs.freereg);
  }

  /** The part of luaK_goiftrue and luaK_goiffalse after luaK_dischargevars. */
  method GoDischarged(fs: FuncState, e: ExpDesc, cond: bool, ghost T: seq<int>, ghost F: seq<int>)
      returns (r: Result<int>, ghost L: seq<int>)
    requires fs.Valid() && EdOk(fs.S(), e, T, F) && LocalReg(e, fs.nactvar) && TrueConstant(fs.S(), e)
    modifies fs`code, fs`jpc, fs`jlist, fs`k, fs`h, fs`freereg, fs`maxstacksize, fs`pend, fs`lasttarget
    ensures r.Success? ==>
              && fs.Valid() && Extends(old(fs.S()), fs.S()) && fs.freereg == old(fs.freereg)
              && ListOf(fs.code, r.value, L)
              && LeftPending(old(fs.S()), e, T, F, fs.S(), if cond then T else F, L)
              && Goes(old(fs.S()), e, if cond then F else T, fs.S(), L, cond, fs.freereg)
    ensures r.Failure? ==> fs.AtLimit(r.error)
  {
    ghost var st0 := fs.S();
    ghost var K, O := if cond then T else F, if cond then F else T;
    L := [];
    ghost var P: seq<int>;
    var b;
    b, P := BranchOn(fs, e, cond, T, F);
    if b.Failure? { return Failure(b.error), []; }
    ghost var st1 := fs.S();
    ListsKept(st0, st1, e, T, F);
    r := CloseBranch(fs, if cond then e.t else e.f, b.value, if cond then e.f else e.t, K, P, O);
    if r.Failure? { return; }
    L := K + P;
    GoFromBranch(st0, e, st1, fs.S(), O, K, P, cond, fs.freereg);
    ExtendsTrans(st0, st1, fs.S());
    PendingAfter(st0, e, st1, fs.S(), T, F, K, O, P);
  }

  /** What is pending after luaK_goiftrue or luaK_goiffalse: the new list L takes over from the lists of
      the descriptor, and all other jumps are as they were. */
  ghost predicate LeftPending(st0: St, e: ExpDesc, T: seq<int>, F: seq<int>, st1: St, K: seq<int>, L: seq<int>) {
    var rest := st0.c.pend - Elems(T) - Elems(F) - Own(e);
    && st1.c.pend == rest + Elems(L) && Elems(L) !! rest
    && Frame(st0.c.code, st1.c.code, rest) && SameControls(st0.c.code, st1.c.code, K)
    && (forall p :: p in K ==> p in L)
  }

  lemma PendingAfter(st0: St, e: ExpDesc, st1: St, st2: St, T: seq<int>, F: seq<int>, K: seq<int>, O: seq<int>, P: seq<int>)
    requires (K == T && O == F) || (K == F && O == T)
    requires Elems(T) !! Elems(F) && Elems(T) + Elems(F) <= st0.c.pend && Own(e) !! Elems(T) + Elems(F)
    requires st1.c.pend == st0.c.pend + Elems(P) && Frame(st0.c.code, st1.c.code, st0.c.pend)
    requires Elems(P) !! (st0.c.pend - Own(e)) && Elems(P) !! Elems(T) + Elems(F) && Own(e) <= Elems(P)
    requires st2.c.pend == st1.c.pend - Elems(O) && Frame(st1.c.code, st2.c.code, st1.c.pend - Elems(K) - Elems(O))
    requires SameControls(st1.c.code, st2.c.code, K + P)
    ensures LeftPending(st0, e, T, F, st2, K, K + P)
  {
    ElemsAppend(K, P);
    var rest := st0.c.pend - Elems(T) - Elems(F) - Own(e);
    FrameTrans(st0.c.code, st1.c.code, st2.c.code, st0.c.pend, st1.c.pend - Elems(K) - Elems(O), rest);
    FrameControls(st0.c.code, st1.c.code, st0.c.pend, K);
    forall p | p in K ensures SameControl(st0.c.code, st2.c.code, p) {
      assert SameControl(st0.c.code, st1.c.code, p);
      assert p in K + P && SameControl(st1.c.code, st2.c.code, p);
    }
  }

  // ---------------------------------------------------------------------------
  // not
  // ---------------------------------------------------------------------------

  function DroppedAt(code: seq<Instr>, L: set<int>, i: int): Instr
    requires 0 <= i < |code|
  {
    if i + 1 in L then Retarget(code[i], NO_REG) else code[i]
  }

  /** The tests before the jumps in L have lost their register. */
  ghost predicate Dropped(code: seq<Instr>, code': seq<Instr>, L: set<int>) {
    |code'| == |code| && forall i :: 0 <= i < |code| ==> code'[i] == DroppedAt(code, L, i)
  }

  lemma DropJumps(code: seq<Instr>, code': seq<Instr>, L: set<int>, head: int, J: seq<int>)
    requires Dropped(code, code', L) && ListOf(code, head, J)
    ensures ListOf(code', head, J)
  {
    ListJumps(code, head, J);
    forall p | p in J ensures 0 <= p < |code| && code'[p] == code[p] {
      assert code'[p] == DroppedAt(code, L, p);
    }
    ListFrame(code, code', head, J);
  }

  lemma DropKeeps(c0: Code, c1: Code, L: seq<int>)
    requires Jumps(c0) && Elems(L) <= c0.pend && Dropped(c0.code, c1.code, Elems(L)) && c1.pend == c0.pend && c1.here == c0.here
    ensures Jumps(c1) && Held(c0, c1) && Frame(c0.code, c1.code, c0.pend - Elems(L))
    ensures forall p :: p in L ==> !Controlled(c1.code, p)
  {
    forall p ensures JumpAt(c1, p) && HeldAt(c0, c1, p) {
      assert JumpAt(c0, p) && JumpAt(c0, p + 1);
      if 0 <= p < |c0.code| { assert c1.code[p] == DroppedAt(c0.code, Elems(L), p); }
    }
    forall p | p in c0.pend - Elems(L) ensures KeptJump(c0.code, c1.code, p) {
      assert JumpAt(c0, p) && HeldAt(c0, c1, p);
      assert c1.code[p] == DroppedAt(c0.code, Elems(L), p);
      if p > 0 { assert c1.code[p - 1] == DroppedAt(c0.code, Elems(L), p - 1); }
    }
    forall p | p in L ensures !Controlled(c1.code, p) {
      assert p in Elems(L) && JumpAt(c0, p);
      if p > 0 { assert c1.code[p - 1] == DroppedAt(c0.code, Elems(L), p - 1); }
    }
  }

  /** removevalues */
  method RemoveValues(fs: FuncState, l: int, ghost L: seq<int>)
    requires fs.Valid() && ListOf(fs.code, l, L) && Elems(L) <= fs.pend
    modifies fs`code
    ensures fs.Valid() && Dropped(old(fs.code), fs.code, Elems(L)) && Held(old(fs.C()), fs.C())
    ensures Frame(old(fs.code), fs.code, fs.pend - Elems(L)) && Extends(old(fs.S()), fs.S())
    ensures forall p :: p in L ==> !Controlled(fs.code, p)
  {
    ghost var st0 := fs.S();
    var list := l;
    ghost var D, rest: seq<int> := {}, L;
    while list != NO_JUMP
      invariant ListOf(fs.code, list, rest)
      invariant D + Elems(rest) == Elems(L) && D !! Elems(rest)
      invariant Dropped(st0.c.code, fs.code, D)
      decreases |rest|
    {
      ListTail(fs.code, list, rest);
      ghost var before := fs.code;
      assert list in Elems(L) && JumpAt(st0.c, list);
      var _ := fs.PatchTestReg(list, NO_REG);
      DropStep(st0.c.code, before, fs.code, D, list);
      D, rest := D + {list}, rest[1..];
      list := GetJump(fs.code, list);
      DropRest(before, fs.code, list, rest);
    }
    ListEnd(fs.code, list, rest);
    assert D == Elems(L);
    DropKeeps(st0.c, fs.C(), L);
    DropJumps(st0.c.code, fs.code, D, fs.jpc, fs.jlist);
    HeldEnds(st0.c, fs.C(), |fs.code|);
    HeldLast(st0.c, fs.C(), fs.lasttarget);
    if |fs.code| > 0 {
      assert HeldAt(st0.c, fs.C(), |fs.code| - 1) && JumpAt(st0.c, |fs.code| - 1);
    }
  }

  lemma DropStep(code: seq<Instr>, before: seq<Instr>, after: seq<Instr>, D: set<int>, p: int)
    requires Dropped(code, before, D) && 0 <= p < |code| && p !in D && before[p].Jmp?
    requires after == if Controlled(before, p) then before[p - 1 := Retarget(before[p - 1], NO_REG)] else before
    ensures Dropped(code, after, D + {p})
  {
    assert p > 0 ==> before[p - 1] == DroppedAt(code, D, p - 1);
    forall i | 0 <= i < |code| ensures after[i] == DroppedAt(code, D + {p}, i) {
      assert before[i] == DroppedAt(code, D, i);
    }
  }

  lemma DropRest(before: seq<Instr>, after: seq<Instr>, head: int, rest: seq<int>)
    requires |after| == |before| && ListOf(before, head, rest)
    requires forall i :: 0 <= i < |before| && !before[i].TestSet? ==> after[i] == before[i]
    ensures ListOf(after, head, rest)
  {
    ListJumps(before, head, rest);
    ListFrame(before, after, head, rest);
  }

  /** The descriptor now stands for the negation of what it stood for. */
  ghost predicate NotAt(x: At, st0: St, e: ExpDesc, st1: St, e1: ExpDesc, base: int) {
    var o, o' := Out(x, Core(st0.c, e)), Out(x, Core(st1.c, e1));
    PreAt(x, st0, st1.k) && x.s <= |Core(st0.c, e).code| && o != Stuck ==>
      if o.Fall? then
        match Rep(x.env, st0.c.code, e, o.R)
        case None => o' == Error || (o'.Fall? && Rep(x.env, st1.c.code, e1, o'.R) == None)
        case Some(v) =>
          && o'.Fall? && Agree(o.R, o'.R, base)
          && Rep(x.env, st1.c.code, e1, o'.R) == Some(Boolean(IsFalse(v)))
      else
        o' == o
  }

  ghost predicate Nots(st0: St, e: ExpDesc, st1: St, e1: ExpDesc, base: int) {
    forall x :: NotAt(x, st0, e, st1, e1, base)
  }

  lemma ConstantNots(st: St, e: ExpDesc, e1: ExpDesc, base: int)
    requires TrueConstant(st, e) && (e.k.VKNum? ==> !IsFalse(e.k.nval))
    requires if e.k.VNil? || e.k.VFalse? then e1.k.VTrue? else (e.k.VK? || e.k.VKNum? || e.k.VTrue?) && e1.k.VFalse?
    ensures Nots(st, e, st, e1, base)
  {
    forall x ensures NotAt(x, st, e, st, e1, base) {
      if e.k.VK? && PreAt(x, st, st.k) {
        assert x.env.k(e.k.info) == st.k[e.k.info];
      }
    }
  }

  lemma InvertNots(st0: St, e: ExpDesc, st1: St, base: int)
    requires e.k.VJmp? && Inverted(st0, st1, e.k.info) && 0 <= st0.c.code[e.k.info - 1].a <= 1
    requires Core(st1.c, e) == Core(st0.c, e)
    ensures Nots(st0, e, st1, e, base)
  {
    forall x ensures NotAt(x, st0, e, st1, e, base) {
    }
  }

  lemma CodedNots(st0: St, e: ExpDesc, st1: St, st2: St, e1: ExpDesc, reg: int, base: int)
    requires Delivers(st0, e, st1, reg) && Jumps(st1.c) && st2.k == st1.k
    requires Coded(st1.c, st2.c, [Not(0, reg)], {}) && e1.k == VReloc(|st1.c.code|)
    requires base <= reg || e.k == VNonReloc(reg)
    ensures Nots(st0, e, st2, e1, base)
  {
    var n := |st1.c.code|;
    assert st2.c.code[n] == st2.c.code[n..][0] && st2.c.pend == st1.c.pend;
    forall x ensures NotAt(x, st0, e, st2, e1, base) {
      assert DeliverAt(x, st0, e, st1, reg);
      if PreAt(x, st0, st2.k) && x.s <= |Core(st0.c, e).code| && Out(x, Core(st0.c, e)) != Stuck {
        DischargeRun(x.env, st1.c, Code(st2.c.code[..n], st1.c.pend, {}), x.s, x.R0);
      }
    }
  }

  /** What the switch of codenot does: the descriptor has the negated value and the same lists. */
  ghost predicate Negated(st0: St, e: ExpDesc, st1: St, d: ExpDesc, T: seq<int>, F: seq<int>) {
    && Extends(st0, st1) && st1.freereg == st0.freereg && st1.c.pend == st0.c.pend
    && Frame(st0.c.code, st1.c.code, st1.c.pend) && EdOk(st1, d, T, F)
    && d.t == e.t && d.f == e.f && Own(d) == Own(e)
    && (d.k.VTrue? || d.k.VFalse? || d.k.VJmp? || d.k.VReloc?)
    && |Core(st0.c, e).code| <= |Core(st1.c, d).code|
    && Nots(st0, e, st1, d, st1.freereg)
  }

  /** The switch of codenot. */
  method NotKind(fs: FuncState, e: ExpDesc, ghost T: seq<int>, ghost F: seq<int>) returns (r: Result<ExpDesc>)
    requires fs.Valid() && EdOk(fs.S(), e, T, F) && LocalReg(e, fs.nactvar) && TrueConstant(fs.S(), e)
    requires !e.k.VLocal? && !e.k.VGlobal?
    modifies fs`code, fs`jpc, fs`jlist, fs`k, fs`h, fs`freereg, fs`maxstacksize
    ensures r.Success? ==> fs.Valid() && Negated(old(fs.S()), e, fs.S(), r.value, T, F)
    ensures r.Failure? ==> fs.AtLimit(r.error)
  {
    hide EdOk, Negated, TrueConstant, LocalReg, FuncState.Valid;
    match e.k {
      case VNil => r := ConstantNot(fs, e, VTrue, T, F);
      case VFalse => r := ConstantNot(fs, e, VTrue, T, F);
      case VK(_) => r := ConstantNot(fs, e, VFalse, T, F);
      case VKNum(_) => r := ConstantNot(fs, e, VFalse, T, F);
      case VTrue => r := ConstantNot(fs, e, VFalse, T, F);
      case VJmp(_) => r := JumpNot(fs, e, T, F);
      case VReloc(_) => r := ValueNot(fs, e, T, F);
      case VNonReloc(_) => r := ValueNot(fs, e, T, F);
    }
  }

  method JumpNot(fs: FuncState, e: ExpDesc, ghost T: seq<int>, ghost F: seq<int>) returns (r: Result<ExpDesc>)
    requires fs.Valid() && EdOk(fs.S(), e, T, F) && e.k.VJmp?
    modifies fs`code
    ensures r == Success(e) && fs.Valid() && Negated(old(fs.S()), e, fs.S(), e, T, F)
  {
    hide FuncState.Valid, EdOk;
    ghost var st0 := fs.S();
    Wellformed(fs);
    InvertJump(fs, e, T, F);
    InvertedNegates(st0, fs.S(), e, T, F);
    r := Success(e);
  }

  lemma Wellformed(fs: FuncState)
    requires fs.Valid()
    ensures Jumps(fs.C()) && EndsWithin(fs.C(), |fs.code|)
  {
  }

  lemma InvertedNegates(st0: St, st1: St, e: ExpDesc, T: seq<int>, F: seq<int>)
    requires Jumps(st0.c) && EdOk(st0, e, T, F) && e.k.VJmp? && Inverted(st0, st1, e.k.info) && EndsWithin(st0.c, |st0.c.code|)
    requires Extends(st0, st1) && EdOk(st1, e, T, F) && Frame(st0.c.code, st1.c.code, st1.c.pend)
    ensures Negated(st0, e, st1, e, T, F)
  {
    InvertKeeps(st0, st1, e, T, F);
    InvertNots(st0, e, st1, st1.freereg);
  }

  method ConstantNot(fs: FuncState, e: ExpDesc, k: ExpKind, ghost T: seq<int>, ghost F: seq<int>) returns (r: Result<ExpDesc>)
    requires fs.Valid() && EdOk(fs.S(), e, T, F) && TrueConstant(fs.S(), e)
    requires if e.k.VNil? || e.k.VFalse? then k == VTrue else (e.k.VK? || e.k.VKNum? || e.k.VTrue?) && k == VFalse
    ensures r == Success(e.(k := k)) && Negated(fs.S(), e, fs.S(), r.value, T, F)
  {
    hide FuncState.Valid;
    r := Success(e.(k := k));
    Wellformed(fs);
    FrameRefl(fs.C());
    ConstantNots(fs.S(), e, r.value, fs.freereg);
  }

  /** Codes an instruction whose register is still open. */
  method CodeReloc(fs: FuncState, i: Instr, t: int, f: int, ghost T: seq<int>, ghost F: seq<int>) returns (r: Result<ExpDesc>)
    requires fs.Valid() && ListOf(fs.code, t, T) && ListOf(fs.code, f, F)
    requires Elems(T) !! Elems(F) && Elems(T) + Elems(F) <= fs.pend
    requires IsValueInstr(i) && !i.Move?
    modifies fs`code, fs`jpc, fs`jlist
    ensures r.Success? ==>
              && r.value == ExpDesc(VReloc(|old(fs.code)|), t, f)
              && fs.Valid() && Extends(old(fs.S()), fs.S()) && Frame(old(fs.code), fs.code, fs.pend)
              && EdOk(fs.S(), r.value, T, F) && Coded(old(fs.C()), fs.C(), [i], {})
    ensures r.Failure? ==> fs.AtLimit(r.error)
  {
    ghost var st0 := fs.S();
    var pc :- fs.LuaKCode(i);
    CodedFrame(st0.c, fs.C(), [i], {});
    ListsKept(st0, fs.S(), ExpDesc(VNil, t, f), T, F);
    assert fs.code[pc] == fs.code[pc..][0];
    r := Success(ExpDesc(VReloc(pc), t, f));
  }

  method ValueNot(fs: FuncState, e: ExpDesc, ghost T: seq<int>, ghost F: seq<int>) returns (r: Result<ExpDesc>)
    requires fs.Valid() && EdOk(fs.S(), e, T, F) && LocalReg(e, fs.nactvar) && (e.k.VReloc? || e.k.VNonReloc?)
    modifies fs`code, fs`jpc, fs`jlist, fs`k, fs`h, fs`freereg, fs`maxstacksize
    ensures r.Success? ==> fs.Valid() && Negated(old(fs.S()), e, fs.S(), r.value, T, F)
    ensures r.Failure? ==> fs.AtLimit(r.error)
  {
    hide Frame, Extends, Coded, Delivers, Negated, Jumps;
    ghost var st0 := fs.S();
    var reg :- DischargeAndFree(fs, e, T, F);
    Wellformed(fs);
    ghost var st1 := fs.S();
    r := CodeReloc(fs, Not(0, reg), e.t, e.f, T, F);
    if r.Failure? { return; }
    ValueNegated(st0, e, st1, fs.S(), r.value, reg, T, F);
  }

  /** discharge2anyreg and freeexp: the value is in a register that is free again. */
  method DischargeAndFree(fs: FuncState, e: ExpDesc, ghost T: seq<int>, ghost F: seq<int>) returns (r: Result<int>)
    requires fs.Valid() && EdOk(fs.S(), e, T, F) && LocalReg(e, fs.nactvar) && (e.k.VReloc? || e.k.VNonReloc?)
    modifies fs`code, fs`jpc, fs`jlist, fs`k, fs`h, fs`freereg, fs`maxstacksize
    ensures r.Success? ==>
              && fs.Valid() && fs.pend == old(fs.pend) && fs.freereg == old(fs.freereg)
              && ListOf(fs.code, e.t, T) && ListOf(fs.code, e.f, F) && Elems(T) !! Elems(F) && Elems(T) + Elems(F) <= fs.pend
              && Delivers(old(fs.S()), e, fs.S(), r.value) && Extends(old(fs.S()), fs.S()) && Frame(old(fs.code), fs.code, fs.pend)
              && ((e.k.VReloc? && old(fs.freereg) <= r.value) || e.k == VNonReloc(r.value))
    ensures r.Failure? ==> fs.AtLimit(r.error)
  {
    hide Frame, Extends, Delivers;
    ghost var st0 := fs.S();
    var a :- Discharge2AnyReg(fs, e, T, F);
    ghost var st1 := fs.S();
    fs.FreeExp(a);
    FreedDelivers(st0, e, st1, fs.S(), a.k.info);
    r := Success(a.k.info);
  }

  lemma FreedDelivers(st0: St, e: ExpDesc, st1: St, st2: St, reg: int)
    requires Delivers(st0, e, st1, reg) && Extends(st0, st1) && st2 == st1.(freereg := st2.freereg)
    ensures Delivers(st0, e, st2, reg) && Extends(st0, st2)
  {
    forall x ensures DeliverAt(x, st0, e, st2, reg) { assert DeliverAt(x, st0, e, st1, reg); }
  }

  lemma ValueNegated(st0: St, e: ExpDesc, st1: St, st2: St, d: ExpDesc, reg: int, T: seq<int>, F: seq<int>)
    requires Delivers(st0, e, st1, reg) && Jumps(st1.c) && Extends(st0, st1) && st1.c.pend == st0.c.pend
    requires Coded(st1.c, st2.c, [Not(0, reg)], {}) && st2.k == st1.k && Extends(st1, st2) && st2.freereg == st0.freereg
    requires Frame(st0.c.code, st1.c.code, st1.c.pend) && Frame(st1.c.code, st2.c.code, st2.c.pend)
    requires EdOk(st2, d, T, F) && d == ExpDesc(VReloc(|st1.c.code|), e.t, e.f)
    requires (e.k.VReloc? && st0.freereg <= reg) || e.k == VNonReloc(reg)
    ensures Negated(st0, e, st2, d, T, F)
  {
    hide Delivers, Nots, EdOk, Jumps, Frame;
    CodedNots(st0, e, st1, st2, d, reg, st2.freereg);
    FrameTrans(st0.c.code, st1.c.code, st2.c.code, st1.c.pend, st2.c.pend, st2.c.pend);
    ExtendsTrans(st0, st1, st2);
  }

  lemma NotsAfter(st0: St, e0: ExpDesc, st1: St, e1: ExpDesc, st2: St, e2: ExpDesc, base: int)
    requires SameValue(st0, e0, st1, e1) && Nots(st1, e1, st2, e2, base)
    requires Extends(st0, st1) && Extends(st1, st2)
    requires |Core(st1.c, e1).code| == |Core(st0.c, e0).code| <= |st0.c.code|
    ensures Nots(st0, e0, st2, e2, base)
  {
    forall x ensures NotAt(x, st0, e0, st2, e2, base) {
      assert SameValueAt(x, st0, e0, st1, e1) && NotAt(x, st1, e1, st2, e2, base);
      if PreAt(x, st0, st2.k) && x.s <= |Core(st0.c, e0).code| {
        PreMono(x, st0, st1, st2.k);
      }
    }
  }

  lemma NotsTrans(st1: St, e1: ExpDesc, st2: St, e2: ExpDesc, st3: St, e3: ExpDesc, base: int)
    requires Nots(st1, e1, st2, e2, base) && SameValue(st2, e2, st3, e3) && st3.k == st2.k
    ensures Nots(st1, e1, st3, e3, base)
  {
    forall x ensures NotAt(x, st1, e1, st3, e3, base) {
      assert NotAt(x, st1, e1, st2, e2, base) && SameValueAt(x, st2, e2, st3, e3);
    }
  }

  /** codenot: negates the value, swaps the lists, and takes the values away from their jumps. */
  method CodeNot(fs: FuncState, e0: ExpDesc, ghost T: seq<int>, ghost F: seq<int>) returns (r: Result<ExpDesc>)
    requires fs.Valid() && EdOk(fs.S(), e0, T, F) && LocalReg(e0, fs.nactvar) && TrueConstant(fs.S(), e0)
    modifies fs`code, fs`jpc, fs`jlist, fs`k, fs`h, fs`freereg, fs`maxstacksize
    ensures r.Success? ==>
              && fs.Valid() && Extends(old(fs.S()), fs.S()) && fs.freereg == old(fs.freereg) && fs.pend == old(fs.pend)
              && Frame(old(fs.code), fs.code, fs.pend - Elems(T) - Elems(F)) && EdOk(fs.S(), r.value, F, T)
              && Own(r.value) == Own(e0)
              && (r.value.k.VTrue? || r.value.k.VFalse? || r.value.k.VJmp? || r.value.k.VReloc?)
              && |Core(old(fs.C()), e0).code| <= |Core(fs.C(), r.value).code|
              && (forall p :: p in T || p in F ==> !Controlled(fs.code, p))
              && Nots(old(fs.S()), e0, fs.S(), r.value, fs.freereg)
    ensures r.Failure? ==> fs.AtLimit(r.error)
  {
    hide Nots, SameValue, Frame, Extends;
    ghost var st0 := fs.S();
    var d :- fs.LuaKDischargeVars(e0, T, F);
    ghost var st1 := fs.S();
    r := NotDischarged(fs, d, T, F);
    if r.Failure? { return; }
    NotsAfter(st0, e0, st1, d, fs.S(), r.value, fs.freereg);
    ExtendsTrans(st0, st1, fs.S());
    FrameTrans(st0.c.code, st1.c.code, fs.code, fs.pend, fs.pend - Elems(T) - Elems(F), fs.pend - Elems(T) - Elems(F));
  }

  /** codenot after luaK_dischargevars. */
  method NotDischarged(fs: FuncState, d: ExpDesc, ghost T: seq<int>, ghost F: seq<int>) returns (r: Result<ExpDesc>)
    requires fs.Valid() && EdOk(fs.S(), d, T, F) && LocalReg(d, fs.nactvar) && TrueConstant(fs.S(), d)
    requires !d.k.VLocal? && !d.k.VGlobal?
    modifies fs`code, fs`jpc, fs`jlist, fs`k, fs`h, fs`freereg, fs`maxstacksize
    ensures r.Success? ==>
              && fs.Valid() && Extends(old(fs.S()), fs.S()) && fs.freereg == old(fs.freereg) && fs.pend == old(fs.pend)
              && Frame(old(fs.code), fs.code, fs.pend - Elems(T) - Elems(F)) && EdOk(fs.S(), r.value, F, T)
              && Own(r.value) == Own(d)
              && (r.value.k.VTrue? || r.value.k.VFalse? || r.value.k.VJmp? || r.value.k.VReloc?)
              && |Core(old(fs.C()), d).code| <= |Core(fs.C(), r.value).code|
              && (forall p :: p in T || p in F ==> !Controlled(fs.code, p))
              && Nots(old(fs.S()), d, fs.S(), r.value, fs.freereg)
    ensures r.Failure? ==> fs.AtLimit(r.error)
  {
    ghost var st1 := fs.S();
    var n :- NotKind(fs, d, T, F);
    ghost var st2 := fs.S();
    var e := ExpDesc(n.k, n.f, n.t);
    RemoveValues(fs, e.f, T);
    ghost var st3 := fs.S();
    KeptElsewhere(st2.c.code, fs.code, e.t, F, fs.pend - Elems(T));
    RemoveValues(fs, e.t, F);
    SwapKeeps(st2, st3, fs.S(), n, e, T, F);
    NotsTrans(st1, d, st2, n, fs.S(), e, fs.freereg);
    ExtendsTrans(st2, st3, fs.S());
    ExtendsTrans(st1, st2, fs.S());
    FrameTrans(st1.c.code, st2.c.code, fs.code, fs.pend, fs.pend - Elems(T) - Elems(F), fs.pend - Elems(T) - Elems(F));
    r := Success(e);
  }

  lemma SwapKeeps(st0: St, st1: St, st2: St, n: ExpDesc, e: ExpDesc, T: seq<int>, F: seq<int>)
    requires Jumps(st0.c) && Jumps(st2.c) && EdOk(st0, n, T, F) && e == ExpDesc(n.k, n.f, n.t)
    requires Held(st0.c, st1.c) && Held(st1.c, st2.c) && st1.c.here == st0.c.here && st2.c.here == st0.c.here
    requires st1.c.pend == st0.c.pend && st2.c.pend == st0.c.pend
    requires Dropped(st0.c.code, st1.c.code, Elems(T)) && Dropped(st1.c.code, st2.c.code, Elems(F))
    requires Frame(st0.c.code, st1.c.code, st0.c.pend - Elems(T)) && Frame(st1.c.code, st2.c.code, st0.c.pend - Elems(F))
    requires st2.k == st0.k && st2.lasttarget == st0.lasttarget && st2.freereg == st0.freereg
    requires forall p :: p in T ==> !Controlled(st1.c.code, p)
    ensures EdOk(st2, e, F, T) && SameValue(st0, n, st2, e) && |Core(st2.c, e).code| == |Core(st0.c, n).code|
    ensures Frame(st0.c.code, st2.c.code, st0.c.pend - Elems(T) - Elems(F))
    ensures forall p :: p in T ==> !Controlled(st2.c.code, p)
  {
    forall i ensures HeldAt(st0.c, st2.c, i) {
      assert HeldAt(st0.c, st1.c, i) && HeldAt(st1.c, st2.c, i);
    }
    var rest := st0.c.pend - Elems(T) - Elems(F);
    FrameTrans(st0.c.code, st1.c.code, st2.c.code, st0.c.pend - Elems(T), st0.c.pend - Elems(F), rest);
    forall p | p in T ensures !Controlled(st2.c.code, p) {
      assert p in Elems(T) && KeptJump(st1.c.code, st2.c.code, p);
    }
    DropJumps(st0.c.code, st1.c.code, Elems(T), n.t, T);
    DropJumps(st0.c.code, st1.c.code, Elems(T), n.f, F);
    DropJumps(st1.c.code, st2.c.code, Elems(F), n.t, T);
    DropJumps(st1.c.code, st2.c.code, Elems(F), n.f, F);
    HeldSame(st0, st2, n, T, F);
    if n.k.VJmp? {
      assert KeptJump(st0.c.code, st2.c.code, n.k.info);
    }
    HeldDescriptor(st0, st2, n, T, F, e, F, T);
    forall x ensures SameValueAt(x, st0, n, st2, e) {
      assert SameValueAt(x, st0, n, st2, n);
    }
  }
}
