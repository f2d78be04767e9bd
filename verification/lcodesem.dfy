/** What the patching operations of lcode.c do to the runs of the code under construction. */
module CodeSemantics {
  import opened LuaObject
  import opened Vm

  ghost predicate JumpAt(s: Code, p: int) {
    p in s.pend || p in s.here ==> 0 <= p < |s.code| && s.code[p].Jmp?
  }

  ghost predicate Jumps(s: Code) {
    s.pend !! s.here && forall p :: JumpAt(s, p)
  }

  // ---------------------------------------------------------------------------
  // Patching a list
  // ---------------------------------------------------------------------------

  /** patchtestreg on the test before a patched jump. */
  function Retarget(i: Instr, reg: int): Instr {
    if !i.TestSet? then i
    else if reg != NO_REG && reg != i.b then TestSet(reg, i.b, i.c)
    else Test(i.b, i.c)
  }

  /** Where the jump p goes: jumps that produce a value go to vtarget, the others to dtarget. */
  function Dest(code: seq<Instr>, p: int, vtarget: int, dtarget: int): int {
    if Controlled(code, p) then vtarget else dtarget
  }

  /** One entry of the code after patchlistaux went over the jumps in L. */
  function PatchedAt(code: seq<Instr>, L: set<int>, vtarget: int, reg: int, dtarget: int, i: int): Instr
    requires 0 <= i < |code|
  {
    if i in L then Jmp(Dest(code, i, vtarget, dtarget) - (i + 1))
    else if i + 1 in L then Retarget(code[i], reg)
    else code[i]
  }

  ghost predicate Patched(code: seq<Instr>, code': seq<Instr>, L: set<int>, vtarget: int, reg: int, dtarget: int) {
    |code'| == |code| && forall i :: 0 <= i < |code| ==> code'[i] == PatchedAt(code, L, vtarget, reg, dtarget, i)
  }

  /** The registers a jump p of a patched list arrives with. */
  function Carried(code: seq<Instr>, p: int, reg: int, R: Regs): Regs {
    if Controlled(code, p) && reg != NO_REG && reg != code[p - 1].b then SetReg(R, reg, Reg(R, code[p - 1].b)) else R
  }

  /** After a list of pending jumps got its targets, a run that used to leave through one of them continues
      at the target, with the tested value in the target register if the jump produces one. */
  lemma {:induction false} PatchRun(env: Env, s: Code, s': Code, L: set<int>, vtarget: int, reg: int, dtarget: int, pc: int, R: Regs)
    requires Jumps(s) && L <= s.pend && s'.pend == s.pend - L && s'.here == s.here
    requires Patched(s.code, s'.code, L, vtarget, reg, dtarget)
    requires forall p :: p in L ==> p < Dest(s.code, p, vtarget, dtarget)
    requires Run(env, s, pc, R) != Stuck
    ensures var o := Run(env, s, pc, R);
            Run(env, s', pc, R) ==
              if o.Exit? && o.p in L
              then Run(env, s', Dest(s.code, o.p, vtarget, dtarget), Carried(s.code, o.p, reg, o.R))
              else o
    decreases |s.code| - pc, 1
  {
    hide InstrValue, NilRange, SetReg;
    if 0 <= pc < |s.code| {
      var i := s.code[pc];
      assert JumpAt(s, pc);
      assert s'.code[pc] == PatchedAt(s.code, L, vtarget, reg, dtarget, pc);
      if i.Jmp? {
        if pc !in s.pend && pc !in s.here {
          PatchRun(env, s, s', L, vtarget, reg, dtarget, pc + 1 + i.sbx, R);
        }
      } else if IsTest(i) {
        PatchTest(env, s, s', L, vtarget, reg, dtarget, pc, R);
      } else if IsValueInstr(i) {
        var v := InstrValue(env, i, R);
        if v.Some? {
          PatchRun(env, s, s', L, vtarget, reg, dtarget, pc + 1, SetReg(R, i.a, v.value));
        }
      } else if i.LoadBool? {
        PatchRun(env, s, s', L, vtarget, reg, dtarget, if i.c != 0 then pc + 2 else pc + 1, SetReg(R, i.a, Boolean(i.b != 0)));
      } else if i.LoadNil? {
        PatchRun(env, s, s', L, vtarget, reg, dtarget, pc + 1, NilRange(R, i.a, i.b));
      }
    }
  }

  /** The same from a test and its jump on. */
  lemma {:induction false} PatchTest(env: Env, s: Code, s': Code, L: set<int>, vtarget: int, reg: int, dtarget: int, pc: int, R: Regs)
    requires Jumps(s) && L <= s.pend && s'.pend == s.pend - L && s'.here == s.here
    requires Patched(s.code, s'.code, L, vtarget, reg, dtarget)
    requires forall p :: p in L ==> p < Dest(s.code, p, vtarget, dtarget)
    requires Run(env, s, pc, R) != Stuck && 0 <= pc < |s.code| && IsTest(s.code[pc])
    ensures var o := Run(env, s, pc, R);
            Run(env, s', pc, R) ==
              if o.Exit? && o.p in L
              then Run(env, s', Dest(s.code, o.p, vtarget, dtarget), Carried(s.code, o.p, reg, o.R))
              else o
    decreases |s.code| - pc, 0
  {
    hide InstrValue, NilRange, SetReg;
    var i := s.code[pc];
    assert JumpAt(s, pc) && JumpAt(s, pc + 1);
    assert s'.code[pc] == PatchedAt(s.code, L, vtarget, reg, dtarget, pc);
    var t := TestResult(env, i, R);
    assert TestResult(env, s'.code[pc], R) == t;
    if t == Some(false) {
      PatchRun(env, s, s', L, vtarget, reg, dtarget, pc + 2, R);
    } else if t == Some(true) {
      assert s'.code[pc + 1] == PatchedAt(s.code, L, vtarget, reg, dtarget, pc + 1);
      if pc + 1 !in s.pend && pc + 1 !in s.here {
        PatchRun(env, s, s', L, vtarget, reg, dtarget, pc + 2 + s.code[pc + 1].sbx,
                 if i.TestSet? then SetReg(R, i.a, Reg(R, i.b)) else R);
      }
    }
  }

  // ---------------------------------------------------------------------------
  // Pending jumps change lists, not meaning
  // ---------------------------------------------------------------------------

  /** The links of pending jumps may change, and their tests may lose the register (removevalues). */
  ghost predicate HeldAt(s: Code, s': Code, i: int)
    requires |s'.code| == |s.code|
  {
    0 <= i < |s.code| ==>
      if i in s.pend || i in s.here then s'.code[i].Jmp?
      else s'.code[i] == s.code[i] ||
           ((i + 1 in s.pend || i + 1 in s.here) && s.code[i].TestSet? && s'.code[i] == Test(s.code[i].b, s.code[i].c))
  }

  ghost predicate Held(s: Code, s': Code) {
    && |s'.code| == |s.code| && (forall i :: HeldAt(s, s', i))
    && s'.pend + s'.here == s.pend + s.here && s.here <= s'.here
  }

  /** Moving pending jumps to the list `here` makes their runs fall off the end (luaK_patchtohere); relinking
      them and dropping test registers changes nothing. */
  lemma {:induction false} HoldRun(env: Env, s: Code, s': Code, pc: int, R: Regs)
    requires Jumps(s) && Jumps(s') && Held(s, s')
    requires Run(env, s, pc, R) != Stuck || s'.code == s.code
    ensures var o := Run(env, s, pc, R);
            Run(env, s', pc, R) == if o.Exit? && o.p in s'.here then Fall(o.R) else o
    decreases |s.code| - pc, 1
  {
    hide InstrValue, NilRange, SetReg;
    if 0 <= pc < |s.code| {
      var i := s.code[pc];
      assert JumpAt(s, pc) && JumpAt(s', pc) && HeldAt(s, s', pc) && HeldAt(s, s', pc - 1);
      assert pc in s'.pend + s'.here <==> pc in s.pend + s.here;
      if i.Jmp? {
        if pc !in s.pend && pc !in s.here && i.sbx >= 0 {
          HoldRun(env, s, s', pc + 1 + i.sbx, R);
        }
      } else if IsTest(i) {
        HoldTest(env, s, s', pc, R);
      } else if IsValueInstr(i) {
        var v := InstrValue(env, i, R);
        if v.Some? {
          HoldRun(env, s, s', pc + 1, SetReg(R, i.a, v.value));
        }
      } else if i.LoadBool? {
        HoldRun(env, s, s', if i.c != 0 then pc + 2 else pc + 1, SetReg(R, i.a, Boolean(i.b != 0)));
      } else if i.LoadNil? {
        HoldRun(env, s, s', pc + 1, NilRange(R, i.a, i.b));
      }
    }
  }

  lemma {:induction false} HoldTest(env: Env, s: Code, s': Code, pc: int, R: Regs)
    requires Jumps(s) && Jumps(s') && Held(s, s')
    requires Run(env, s, pc, R) != Stuck || s'.code == s.code
    requires 0 <= pc < |s.code| && IsTest(s.code[pc])
    ensures var o := Run(env, s, pc, R);
            Run(env, s', pc, R) == if o.Exit? && o.p in s'.here then Fall(o.R) else o
    decreases |s.code| - pc, 0
  {
    hide InstrValue, NilRange, SetReg;
    var i, t := s.code[pc], TestResult(env, s.code[pc], R);
    assert JumpAt(s, pc) && JumpAt(s, pc + 1) && JumpAt(s', pc) && HeldAt(s, s', pc) && HeldAt(s, s', pc - 1);
    assert pc + 1 in s'.pend + s'.here <==> pc + 1 in s.pend + s.here;
    if t == Some(false) {
      HoldRun(env, s, s', pc + 2, R);
    } else if t == Some(true) {
      assert HeldAt(s, s', pc + 1) && JumpAt(s', pc + 1);
      if pc + 1 < |s.code| && s.code[pc + 1].Jmp? && pc + 1 !in s.pend && pc + 1 !in s.here && s.code[pc + 1].sbx >= 0 {
        HoldRun(env, s, s', pc + 2 + s.code[pc + 1].sbx, if i.TestSet? then SetReg(R, i.a, Reg(R, i.b)) else R);
      }
    }
  }

  // ---------------------------------------------------------------------------
  // Coding one more instruction
  // ---------------------------------------------------------------------------

  /** Appending code when no jump waits for it: a run that fell off the end goes on with the new code. */
  lemma {:induction false} AppendRun(env: Env, s: Code, s': Code, pc: int, R: Regs)
    requires Jumps(s) && s.here == {} && s'.here == {}
    requires |s.code| <= |s'.code| && s.code == s'.code[..|s.code|]
    requires s.pend <= s'.pend && forall p :: p in s'.pend && p < |s.code| ==> p in s.pend
    requires Run(env, s, pc, R) != Stuck
    ensures var o := Run(env, s, pc, R);
            Run(env, s', pc, R) == if o.Fall? then Run(env, s', |s.code|, o.R) else o
    decreases |s.code| - pc
  {
    if 0 <= pc < |s.code| {
      var j := s.code[pc];
      assert s'.code[pc] == j;
      assert pc > 0 ==> s'.code[pc - 1] == s.code[pc - 1];
      assert JumpAt(s, pc) && JumpAt(s, pc + 1);
      if j.Jmp? {
        if pc !in s.pend {
          AppendRun(env, s, s', pc + 1 + j.sbx, R);
        }
      } else if IsTest(j) {
        var t := TestResult(env, j, R);
        if t == Some(false) {
          AppendRun(env, s, s', pc + 2, R);
        } else if t == Some(true) {
          assert s'.code[pc + 1] == s.code[pc + 1];
          if pc + 1 !in s.pend {
            AppendRun(env, s, s', pc + 2 + s.code[pc + 1].sbx, if j.TestSet? then SetReg(R, j.a, Reg(R, j.b)) else R);
          }
        }
      } else if IsValueInstr(j) {
        var v := InstrValue(env, j, R);
        if v.Some? {
          AppendRun(env, s, s', pc + 1, SetReg(R, j.a, v.value));
        }
      } else if j.LoadBool? {
        AppendRun(env, s, s', if j.c != 0 then pc + 2 else pc + 1, SetReg(R, j.a, Boolean(j.b != 0)));
      } else if j.LoadNil? {
        AppendRun(env, s, s', pc + 1, NilRange(R, j.a, j.b));
      }
    }
  }

  // ---------------------------------------------------------------------------
  // Taking instructions off the end again
  // ---------------------------------------------------------------------------

  /** Control does not go from instruction i to beyond n. */
  ghost predicate TargetOk(s: Code, i: int, n: int) {
    0 <= i < n && n <= |s.code| ==>
      var j := s.code[i];
      if j.Jmp? then i in s.pend || i in s.here || i + 1 + j.sbx <= n
      else if IsTest(j) || (j.LoadBool? && j.c != 0) then i + 2 <= n
      else true
  }

  ghost predicate EndsWithin(s: Code, n: int) {
    forall i :: TargetOk(s, i, n)
  }

  /** If nothing jumps over the end of a prefix, then the prefix by itself runs as well. */
  lemma {:induction false} PrefixRun(env: Env, s: Code, s': Code, pc: int, R: Regs)
    requires Jumps(s) && s.here == {} && s'.here == {}
    requires |s.code| <= |s'.code| && s.code == s'.code[..|s.code|]
    requires s.pend <= s'.pend && forall p :: p in s'.pend && p < |s.code| ==> p in s.pend
    requires EndsWithin(s', |s.code|)
    requires pc <= |s.code| && Run(env, s', pc, R) != Stuck
    ensures Run(env, s, pc, R) != Stuck
    decreases |s.code| - pc
  {
    if 0 <= pc < |s.code| {
      var j := s.code[pc];
      assert s'.code[pc] == j && TargetOk(s', pc, |s.code|);
      assert pc > 0 ==> s'.code[pc - 1] == s.code[pc - 1];
      assert JumpAt(s, pc) && JumpAt(s, pc + 1);
      if j.Jmp? {
        if pc !in s.pend {
          PrefixRun(env, s, s', pc + 1 + j.sbx, R);
        }
      } else if IsTest(j) {
        var t := TestResult(env, j, R);
        if t == Some(false) {
          PrefixRun(env, s, s', pc + 2, R);
        } else if t == Some(true) {
          assert s'.code[pc + 1] == s.code[pc + 1] && TargetOk(s', pc + 1, |s.code|);
          if pc + 1 !in s.pend {
            PrefixRun(env, s, s', pc + 2 + s.code[pc + 1].sbx, if j.TestSet? then SetReg(R, j.a, Reg(R, j.b)) else R);
          }
        }
      } else if IsValueInstr(j) {
        var v := InstrValue(env, j, R);
        if v.Some? {
          PrefixRun(env, s, s', pc + 1, SetReg(R, j.a, v.value));
        }
      } else if j.LoadBool? {
        PrefixRun(env, s, s', if j.c != 0 then pc + 2 else pc + 1, SetReg(R, j.a, Boolean(j.b != 0)));
      } else if j.LoadNil? {
        PrefixRun(env, s, s', pc + 1, NilRange(R, j.a, j.b));
      }
    }
  }

  lemma {:induction false} NilRangeAt(R: Regs, a: int, b: int, i: int)
    requires 0 <= a && b < 256 && 0 <= i < 256
    ensures Reg(NilRange(R, a, b), i) == if a <= i <= b || i == b then Nil else Reg(R, i)
    decreases if b > a then b - a else 0
  {
    if b > a {
      NilRangeAt(SetReg(R, b, Nil), a, b - 1, i);
    }
  }

  /** Extending a LOADNIL at the end of the code (luaK_nil) makes the new registers nil on every run that
      falls off the end, because no jump goes past it. */
  lemma NilRun(env: Env, s: Code, s': Code, b': int, pc: int, R: Regs)
    requires Jumps(s) && s.here == {} && |s.code| > 0 && s.code[|s.code| - 1].LoadNil?
    requires var l := s.code[|s.code| - 1];
             s' == Code(s.code[|s.code| - 1 := LoadNil(l.a, b')], s.pend, s.here) && 0 <= l.a <= l.b <= b' < 256
    requires EndsWithin(s, |s.code| - 1)
    requires pc < |s.code| && Run(env, s, pc, R) != Stuck
    ensures var l, o, o' := s.code[|s.code| - 1], Run(env, s, pc, R), Run(env, s', pc, R);
            if o.Fall? then o'.Fall? && forall i :: 0 <= i < 256 ==>
              Reg(o'.R, i) == (if l.a <= i <= b' then Nil else Reg(o.R, i)) &&
              (l.a <= i <= l.b ==> Reg(o.R, i) == Nil)
            else o' == o
  {
    var n := |s.code| - 1;
    var l := s.code[n];
    var c := Code(s.code[..n], s.pend, {});
    forall p ensures JumpAt(c, p) {
      assert JumpAt(s, p);
    }
    PrefixRun(env, c, s, pc, R);
    AppendRun(env, c, s, pc, R);
    AppendRun(env, c, s', pc, R);
    var o := Run(env, c, pc, R);
    if o.Fall? {
      assert Run(env, s, n, o.R) == Fall(NilRange(o.R, l.a, l.b));
      assert Run(env, s', n, o.R) == Fall(NilRange(o.R, l.a, b'));
      forall i | 0 <= i < 256
        ensures Reg(NilRange(o.R, l.a, b'), i) == if l.a <= i <= b' then Nil else Reg(NilRange(o.R, l.a, l.b), i)
        ensures l.a <= i <= l.b ==> Reg(NilRange(o.R, l.a, l.b), i) == Nil
      {
        NilRangeAt(o.R, l.a, l.b, i);
        NilRangeAt(o.R, l.a, b', i);
      }
    }
  }
}
